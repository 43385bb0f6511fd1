/** The section view of a charter: the text span of each section found with the pattern
    table, a severity inferred from the analysis verdict, and the recommendations of the
    analysis attached to the section they name. */
module SectionMapping {
  import opened Wrappers
  import opened Levels
  import opened Text
  import opened Patterns
  import opened CharterAnalyzer

  /** The standard order of the eight charter sections. */
  const SectionOrder: seq<string> := [
    "Información Básica del Proyecto",
    "Propósito y Justificación",
    "Objetivos y Criterios de Éxito",
    "Requisitos de Alto Nivel",
    "Supuestos y Riesgos",
    "Presupuesto y Recursos",
    "Interesados",
    "Autorización"
  ]

  /** Where a section starts and, when there is an end pattern, where it stops. */
  datatype SectionPattern = SectionPattern(startPattern: Pattern, endPattern: Option<Pattern>)

  const SectionPatterns: seq<(string, SectionPattern)> := [
    ("Información Básica del Proyecto", SectionPattern(
      [Literal("Nombre del proyecto:"), Literal("Ficha de Proyecto"), Literal("Resumen:"), Literal("Equipo al que se presentan")],
      Some([Literal("Contexto y Antecedentes"), Literal("Solicitado o propuesto")]))),
    ("Propósito y Justificación", SectionPattern(
      [Literal("Contexto y Antecedentes"), Literal("Resumen:")],
      Some([Literal("Fechas Clave"), Literal("Alineación con Estrategia")]))),
    ("Objetivos y Criterios de Éxito", SectionPattern(
      [Literal("Sobre el proyecto"), Literal("Objetivo Principal"), Literal("Objetivos específicos"), Literal("Criterios de Éxito")],
      Some([Literal("Alcance:"), Literal("Hitos y entregables")]))),
    ("Requisitos de Alto Nivel", SectionPattern(
      [Literal("Alcance:")],
      Some([Literal("Criterios de Éxito"), Literal("Hitos"), Literal("Equipo del Proyecto")]))),
    ("Supuestos y Riesgos", SectionPattern(
      [Literal("Riesgos"), Literal("Atenciones"), Literal("Fortalezas:")],
      Some([Literal("Fechas Clave"), Literal("Alineación"), Literal("sesión del faro")]))),
    ("Presupuesto y Recursos", SectionPattern(
      [Literal("ROI Esperado"), Literal("Retorno sobre la Inversión")],
      Some([Literal("Transición a operación"), Literal("Control de cambios")]))),
    ("Interesados", SectionPattern(
      [Literal("Equipo del Proyecto"), Literal("Roles clave"), Literal("Miembros del Equipo")],
      Some([Literal("ROI Esperado"), Literal("Transición")]))),
    ("Autorización", SectionPattern(
      [Literal("Fechas Clave"), Literal("Control de cambios"), Spanning("Versión", "Fecha")],
      None))
  ]

  /** `SECTION_PATTERNS[name]`. */
  function PatternFor(name: string): Option<SectionPattern>
  {
    Lookup(SectionPatterns, name)
  }

  /** Every section the analysis reports has an entry in the pattern table, and the two
      lists of section names agree. */
  lemma PatternTableCoversSections()
    ensures SectionOrder == RequiredSections
    ensures forall i :: 0 <= i < |SectionOrder| ==> PatternFor(SectionOrder[i]).Some?
  {
    forall i | 0 <= i < |SectionOrder| ensures PatternFor(SectionOrder[i]).Some? {
      assert SectionPatterns[i].0 == SectionOrder[i];
    }
  }

  // ---------------------------------------------------------------------------
  // Extraction

  /** Characters taken after the start when no end match cuts the section. */
  const Window: nat := 1000

  /** A section is complete when more characters than this were extracted. */
  const CompleteLength: nat := 50

  datatype Extraction = Extraction(content: string, startIndex: int, endIndex: int, isComplete: bool)

  const NoExtraction: Extraction := Extraction("", -1, -1, false)

  function Min(a: int, b: int): (m: int)
    ensures m <= a && m <= b && (m == a || m == b)
  {
    if a <= b then a else b
  }

  /** The end pattern's first match in the text after the start lies at offset `e`, and
      `e` is not the start itself. */
  predicate EndCutAt(after: string, p: Pattern, e: nat)
  {
    0 < e <= |after| && MatchesAt(after, e, p) && forall i: nat :: i < e ==> !MatchesAt(after, i, p)
  }

  /** There is an end pattern and it matches somewhere after the start itself. */
  ghost predicate HasEndCut(after: string, endPattern: Option<Pattern>)
  {
    endPattern.Some? && exists e: nat :: EndCutAt(after, endPattern.value, e)
  }

  /** `extractSectionWithPattern`: the section starts at the first start match and ends
      `EndOffset` characters later (at the first end match after the start when that match
      is not at the start itself, otherwise 1000 characters later or at the end of the
      text); its content is the trimmed span, complete when longer than 50 characters. */
  function ExtractSectionWithPattern(text: string, pattern: SectionPattern): (r: Extraction)
    ensures r.startIndex == -1 <==> forall i: nat :: i <= |text| ==> !MatchesAt(text, i, pattern.startPattern)
    ensures r.startIndex == -1 ==> r == NoExtraction
    ensures r.startIndex != -1 ==>
      && 0 <= r.startIndex <= r.endIndex <= |text|
      && MatchesAt(text, r.startIndex, pattern.startPattern)
      && (forall i: nat :: i < r.startIndex ==> !MatchesAt(text, i, pattern.startPattern))
      && r.content == Trim(text[r.startIndex..r.endIndex])
      && (r.isComplete <==> |r.content| > CompleteLength)
      && r.endIndex - r.startIndex == EndOffset(text[r.startIndex..], pattern.endPattern)
  {
    match FirstMatch(text, pattern.startPattern)
    case None => NoExtraction
    case Some(s) =>
      var endIndex := s + EndOffset(text[s..], pattern.endPattern);
      var content := Trim(text[s..endIndex]);
      Extraction(content, s, endIndex, |content| > CompleteLength)
  }

  /** Lines 97-107, relative to the start: the offset of the first end match when it is not
      at the start itself, otherwise the window, cut at the end of the text. */
  function EndOffset(after: string, endPattern: Option<Pattern>): (e: nat)
    ensures e <= |after|
    ensures HasEndCut(after, endPattern) ==> EndCutAt(after, endPattern.value, e)
    ensures !HasEndCut(after, endPattern) ==> e == Min(Window, |after|)
  {
    var endMatch := if endPattern.Some? then FirstMatch(after, endPattern.value) else None;
    if endMatch.Some? && endMatch.value > 0 then
      assert EndCutAt(after, endPattern.value, endMatch.value);
      endMatch.value
    else
      assert !HasEndCut(after, endPattern);
      Min(Window, |after|)
  }

  // ---------------------------------------------------------------------------
  // Display span of a section

  /** What a section shows when no text could be attributed to it. */
  const NotFoundContent: string := "Sección no encontrada en el documento"

  datatype Span = Span(content: string, startIndex: int, endIndex: int)

  /** The first characters of the content, which locate it again in the text. */
  function Head(content: string): (h: string)
    ensures |h| <= |content| && h == content[..|h|]
    ensures |content| > 0 ==> |h| > 0
  {
    content[..Min(CompleteLength, |content|)]
  }

  /** Lines 280-296: the content, start and end a section record gets. Without a pattern
      or on a blank text it shows the not-found text at -1..-1; when the extraction is
      empty, the not-found text at the extractor's indices; otherwise the extracted
      content, placed at the first occurrence of its first 50 characters and as long as
      the content. */
  function ReconcileSpan(text: string, name: string): (r: Span)
    ensures PatternFor(name).None? || IsBlank(text) ==> r == Span(NotFoundContent, -1, -1)
    ensures (PatternFor(name).Some? && !IsBlank(text)
             && ExtractSectionWithPattern(text, PatternFor(name).value).content == "") ==>
      var x := ExtractSectionWithPattern(text, PatternFor(name).value);
      r == Span(NotFoundContent, x.startIndex, x.endIndex)
    ensures (PatternFor(name).Some? && !IsBlank(text)
             && ExtractSectionWithPattern(text, PatternFor(name).value).content != "") ==>
      && r.content == ExtractSectionWithPattern(text, PatternFor(name).value).content
      && 0 <= r.startIndex <= r.endIndex <= |text|
      && r.endIndex - r.startIndex == |r.content|
      && OccursAt(text, Head(r.content), r.startIndex)
      && (forall i :: 0 <= i < r.startIndex ==> !OccursAt(text, Head(r.content), i))
  {
    match PatternFor(name)
    case None => Span(NotFoundContent, -1, -1)
    case Some(pattern) =>
      if IsBlank(text) then Span(NotFoundContent, -1, -1)
      else
        var x := ExtractSectionWithPattern(text, pattern);
        if |x.content| > 0 then
          ContentOccurs(text, x.startIndex, x.endIndex);
          var contentStart := IndexOf(text, Head(x.content));
          var startIndex := if contentStart != -1 then contentStart else x.startIndex;
          var endIndex := if startIndex != -1 then startIndex + |x.content| else x.endIndex;
          Span(x.content, startIndex, endIndex)
        else
          Span(NotFoundContent, x.startIndex, x.endIndex)
  }

  /** The trimmed content of a span occurs in the text inside that span, so its head is
      found no later than there and the content fits after the head's first occurrence. */
  lemma ContentOccurs(text: string, a: int, b: int)
    requires 0 <= a <= b <= |text|
    requires Trim(text[a..b]) != ""
    ensures var c := Trim(text[a..b]);
      IndexOf(text, Head(c)) != -1 && IndexOf(text, Head(c)) + |c| <= b
  {
    var c := Trim(text[a..b]);
    var t := TrimStartIndex(text[a..b]);
    var h := Head(c);
    assert c == text[a + t..a + t + |c|] by {
      SliceOfSlice(text, a, b, t, t + |c|);
    }
    assert OccursAt(text, h, a + t) by {
      assert text[a + t..a + t + |h|] == c[..|h|];
    }
    var idx := IndexOf(text, h);
    assert idx != -1 && idx <= a + t;
  }

  // ---------------------------------------------------------------------------
  // Severity and priority

  /** `inferSeverity`: a missing section is of high severity, a found one is the more
      severe the less confident the verdict. */
  function InferSeverity(found: bool, confidence: Level): (s: Level)
    ensures !found ==> s == High
    ensures found ==> Rank(s) + Rank(confidence) == 2
  {
    if !found then High
    else if confidence == Low then High
    else if confidence == Medium then Medium
    else Low
  }

  /** A recommendation as attached to a section record. */
  datatype LinkedRecommendation = LinkedRecommendation(priority: Level, issue: string, suggestion: string)

  /** `getMaxPriority`: none for no recommendations, otherwise the highest priority among
      them. */
  function MaxPriority(recs: seq<LinkedRecommendation>): (r: Option<Level>)
    ensures r.None? <==> |recs| == 0
    ensures r.Some? ==> exists i :: 0 <= i < |recs| && recs[i].priority == r.value
    ensures r.Some? ==> forall i :: 0 <= i < |recs| ==> Rank(recs[i].priority) <= Rank(r.value)
  {
    if |recs| == 0 then None
    else if exists i :: 0 <= i < |recs| && recs[i].priority == High then Some(High)
    else if exists i :: 0 <= i < |recs| && recs[i].priority == Medium then Some(Medium)
    else
      assert recs[0].priority == Low;
      Some(Low)
  }

  /** Attaching one more recommendation raises the maximum to its priority at most. */
  lemma {:induction false} MaxPriorityAppend(recs: seq<LinkedRecommendation>, x: LinkedRecommendation)
    ensures MaxPriority(recs + [x]) ==
      if recs == [] then Some(x.priority) else Some(Max(MaxPriority(recs).value, x.priority))
  {
    var all := recs + [x];
    var m := MaxPriority(all).value;
    assert all[|recs|] == x;
    if recs != [] {
      var old_m := MaxPriority(recs).value;
      var i :| 0 <= i < |all| && all[i].priority == m;
      var j :| 0 <= j < |recs| && recs[j].priority == old_m;
      assert all[j] == recs[j];
      assert forall k :: 0 <= k < |recs| ==> all[k] == recs[k];
    }
  }

  // ---------------------------------------------------------------------------
  // Matching a recommendation to a section

  /** The keyword table of the second tier, in its declaration order: a lower-case
      keyword and the section it sends a recommendation to. */
  const ExplicitMappings: seq<(string, string)> := [
    ("presupuesto", "Presupuesto y Recursos"),
    ("budget", "Presupuesto y Recursos"),
    ("roi esperado", "Presupuesto y Recursos"),
    ("roi", "Presupuesto y Recursos"),
    ("recursos", "Presupuesto y Recursos"),
    ("retorno sobre la inversión", "Presupuesto y Recursos"),
    ("equipo del proyecto", "Interesados"),
    ("team", "Interesados"),
    ("interesados", "Interesados"),
    ("stakeholder", "Interesados"),
    ("stakeholders", "Interesados"),
    ("roles clave", "Interesados"),
    ("miembros del equipo", "Interesados"),
    ("riesgos", "Supuestos y Riesgos"),
    ("supuestos", "Supuestos y Riesgos"),
    ("risk", "Supuestos y Riesgos"),
    ("assumptions", "Supuestos y Riesgos"),
    ("atenciones", "Supuestos y Riesgos"),
    ("propósito", "Propósito y Justificación"),
    ("justificación", "Propósito y Justificación"),
    ("business case", "Propósito y Justificación"),
    ("hypothesis", "Propósito y Justificación"),
    ("contexto y antecedentes", "Propósito y Justificación"),
    ("objetivos", "Objetivos y Criterios de Éxito"),
    ("criterios de éxito", "Objetivos y Criterios de Éxito"),
    ("success criteria", "Objetivos y Criterios de Éxito"),
    ("objetivo principal", "Objetivos y Criterios de Éxito"),
    ("alcance", "Requisitos de Alto Nivel"),
    ("requisitos", "Requisitos de Alto Nivel"),
    ("scope", "Requisitos de Alto Nivel"),
    ("requisitos de alto nivel", "Requisitos de Alto Nivel"),
    ("alineación con estrategia", "Propósito y Justificación"),
    ("strategic alignment", "Propósito y Justificación"),
    ("fechas clave", "Autorización"),
    ("control de cambios", "Autorización"),
    ("autorización", "Autorización"),
    ("versión", "Autorización"),
    ("transición a operación", "Presupuesto y Recursos"),
    ("transición", "Presupuesto y Recursos")
  ]

  /** The three ways a section name can fit a lower-cased recommendation label. */
  datatype Criterion = SameIgnoringCase | SameName | Overlapping

  predicate Fits(c: Criterion, name: string, key: string)
  {
    match c
    case SameIgnoringCase => Lower(name) == key
    case SameName => name == key
    case Overlapping => Contains(Lower(name), key) || Contains(key, Lower(name))
  }

  /** `names.findIndex(n => fits(n))` from `from` on, as an option. */
  function FirstFitting(names: seq<string>, c: Criterion, key: string, from: nat): (r: Option<nat>)
    ensures r.Some? ==> from <= r.value < |names| && Fits(c, names[r.value], key)
    ensures r.Some? ==> forall i :: from <= i < r.value ==> !Fits(c, names[i], key)
    ensures r.None? <==> forall i :: from <= i < |names| ==> !Fits(c, names[i], key)
    decreases |names| - from
  {
    if from >= |names| then None
    else if Fits(c, names[from], key) then Some(from)
    else FirstFitting(names, c, key, from + 1)
  }

  /** Keyword `j` of the table occurs in the label and its section is among the names. */
  predicate Applies(names: seq<string>, recLower: string, table: seq<(string, string)>, j: nat)
    requires j < |table|
  {
    Contains(recLower, table[j].0) && FirstFitting(names, SameName, table[j].1, 0).Some?
  }

  /** The second tier from table entry `from` on: the section of the first applicable
      keyword. */
  function ExplicitTier(names: seq<string>, recLower: string, table: seq<(string, string)>, from: nat): (r: Option<nat>)
    ensures r.None? <==> forall j :: from <= j < |table| ==> !Applies(names, recLower, table, j)
    ensures r.Some? ==> r.value < |names|
    decreases |table| - from
  {
    if from >= |table| then None
    else if Applies(names, recLower, table, from) then FirstFitting(names, SameName, table[from].1, 0)
    else ExplicitTier(names, recLower, table, from + 1)
  }

  /** The second tier picks the section of the first applicable keyword. */
  lemma {:induction false} ExplicitTierPicksFirst(names: seq<string>, recLower: string, table: seq<(string, string)>, from: nat, j: nat)
    requires from <= j < |table| && Applies(names, recLower, table, j)
    requires forall i :: from <= i < j ==> !Applies(names, recLower, table, i)
    ensures ExplicitTier(names, recLower, table, from) == FirstFitting(names, SameName, table[j].1, 0)
    decreases j - from
  {
    if from < j {
      ExplicitTierPicksFirst(names, recLower, table, from + 1, j);
    }
  }

  /** `findMatchingSection`, by index into the section list. */
  function MatchingSection(names: seq<string>, recSection: string): (r: Option<nat>)
    ensures r.Some? ==> r.value < |names|
  {
    var recLower := Lower(recSection);
    var exact := FirstFitting(names, SameIgnoringCase, recLower, 0);
    if exact.Some? then exact
    else
      var explicit := ExplicitTier(names, recLower, ExplicitMappings, 0);
      if explicit.Some? then explicit
      else FirstFitting(names, Overlapping, recLower, 0)
  }

  /** Tier 1: when some name equals the label ignoring case, the match is the first such
      name. */
  lemma ExactTierWins(names: seq<string>, recSection: string)
    requires exists i :: 0 <= i < |names| && Lower(names[i]) == Lower(recSection)
    ensures var r := MatchingSection(names, recSection);
      && r.Some? && Lower(names[r.value]) == Lower(recSection)
      && forall i :: 0 <= i < r.value ==> Lower(names[i]) != Lower(recSection)
  {
  }

  /** Tier 2: otherwise, when keyword `j` is the first of the table that occurs in the
      label and whose section is listed, the match is the first name equal to that
      section. */
  lemma ExplicitTierWins(names: seq<string>, recSection: string, j: nat)
    requires forall i :: 0 <= i < |names| ==> Lower(names[i]) != Lower(recSection)
    requires j < |ExplicitMappings| && Applies(names, Lower(recSection), ExplicitMappings, j)
    requires forall i :: 0 <= i < j ==> !Applies(names, Lower(recSection), ExplicitMappings, i)
    ensures var r := MatchingSection(names, recSection);
      && r.Some? && names[r.value] == ExplicitMappings[j].1
      && forall i :: 0 <= i < r.value ==> names[i] != ExplicitMappings[j].1
  {
    ExplicitTierPicksFirst(names, Lower(recSection), ExplicitMappings, 0, j);
  }

  /** Tier 3: otherwise the match is the first name that contains the lower-cased label or
      is contained in it, ignoring case, and there is no match when no name is. */
  lemma OverlapTierDecides(names: seq<string>, recSection: string)
    requires forall i :: 0 <= i < |names| ==> Lower(names[i]) != Lower(recSection)
    requires forall j :: 0 <= j < |ExplicitMappings| ==> !Applies(names, Lower(recSection), ExplicitMappings, j)
    ensures var r := MatchingSection(names, recSection);
      && (r.Some? ==> Fits(Overlapping, names[r.value], Lower(recSection))
                      && forall i :: 0 <= i < r.value ==> !Fits(Overlapping, names[i], Lower(recSection)))
      && (r.None? <==> forall i :: 0 <= i < |names| ==> !Fits(Overlapping, names[i], Lower(recSection)))
  {
  }

  /** The matching loop of lines 149-248, over the names of the section records. */
  method FindMatchingSection(names: seq<string>, recommendationSection: string) returns (r: Option<nat>)
    ensures r == MatchingSection(names, recommendationSection)
  {
    var recLower := Lower(recommendationSection);
    r := FirstFitting(names, SameIgnoringCase, recLower, 0);
    if r.Some? { return; }
    r := ExplicitSearch(names, recLower, ExplicitMappings);
    if r.Some? { return; }
    r := FirstFitting(names, Overlapping, recLower, 0);
  }

  /** The second step of the matching loop: the keywords of the table in order, stopping at
      the first that occurs in the label and whose section is listed. */
  method ExplicitSearch(names: seq<string>, recLower: string, table: seq<(string, string)>) returns (r: Option<nat>)
    ensures r == ExplicitTier(names, recLower, table, 0)
  {
    for j := 0 to |table|
      invariant forall i :: 0 <= i < j ==> !Applies(names, recLower, table, i)
    {
      if Contains(recLower, table[j].0) {
        r := FirstFitting(names, SameName, table[j].1, 0);
        if r.Some? {
          ExplicitTierPicksFirst(names, recLower, table, 0, j);
          return;
        }
      }
    }
    return None;
  }

  // ---------------------------------------------------------------------------
  // Building and linking the section records

  datatype MappedSection = MappedSection(
    sectionName: string,
    content: string,
    startIndex: int,
    endIndex: int,
    hasRecommendations: bool,
    recommendations: seq<LinkedRecommendation>,
    isComplete: bool,
    confidence: Level,
    severity: Level,
    maxPriority: Option<Level>)

  /** The record built for one verdict before any recommendation is linked. */
  function InitialRecord(text: string, section: SectionAnalysis): (m: MappedSection)
    ensures m.sectionName == section.name && m.isComplete == section.found && m.confidence == section.confidence
    ensures m.severity == InferSeverity(section.found, section.confidence)
    ensures !m.hasRecommendations && m.recommendations == [] && m.maxPriority.None?
  {
    var span := ReconcileSpan(text, section.name);
    MappedSection(section.name, span.content, span.startIndex, span.endIndex, false, [],
      section.found, section.confidence, InferSeverity(section.found, section.confidence), None)
  }

  function Names(sections: seq<SectionAnalysis>): (names: seq<string>)
    ensures |names| == |sections| && forall i :: 0 <= i < |sections| ==> names[i] == sections[i].name
  {
    seq(|sections|, i requires 0 <= i < |sections| => sections[i].name)
  }

  function Link(rec: Recommendation): LinkedRecommendation
  {
    LinkedRecommendation(rec.priority, rec.issue, rec.suggestion)
  }

  /** Where a recommendation label goes among the sections `names`: the index of the
      section it matches, if any. */
  function Target(names: seq<string>): string -> Option<nat>
  {
    recSection => MatchingSection(names, recSection)
  }

  /** The recommendations that end up on section `k` when each goes to the section
      `target` picks for its label, in their original order. */
  function LinkedTo(target: string -> Option<nat>, recs: seq<Recommendation>, k: nat): (r: seq<LinkedRecommendation>)
    ensures |r| <= |recs|
  {
    if |recs| == 0 then []
    else
      var last := recs[|recs| - 1];
      LinkedTo(target, recs[..|recs| - 1], k) + if target(last.section) == Some(k) then [Link(last)] else []
  }

  /** `mapCharterToSections`: one record per verdict, in order, with its span, its
      completeness and confidence from the verdict and the inferred severity; every
      recommendation is appended to the record it matches, and afterwards each record knows
      whether it has recommendations and its maximum priority. */
  method MapCharterToSections(extractedText: string, claudeAnalysis: ClaudeAnalysis) returns (mapped: seq<MappedSection>)
    ensures |mapped| == |claudeAnalysis.sections|
    ensures forall k :: 0 <= k < |mapped| ==>
      var linked := LinkedTo(Target(Names(claudeAnalysis.sections)), claudeAnalysis.recommendations, k);
      mapped[k] == InitialRecord(extractedText, claudeAnalysis.sections[k]).(
        recommendations := linked, hasRecommendations := linked != [], maxPriority := MaxPriority(linked))
  {
    var sections := claudeAnalysis.sections;
    var names := Names(sections);
    var records := new MappedSection[|sections|](k requires 0 <= k < |sections| => InitialRecord(extractedText, sections[k]));
    LinkRecommendations(records, names, claudeAnalysis.recommendations);
    SetMaxPriorities(records);
    mapped := records[..];
  }

  /** Lines 317-337: each recommendation, in order, is appended to the record it matches
      and marks it as having recommendations; one that matches nothing is dropped. */
  method LinkRecommendations(records: array<MappedSection>, names: seq<string>, recs: seq<Recommendation>)
    requires records.Length == |names|
    requires forall k :: 0 <= k < records.Length ==> records[k].recommendations == [] && !records[k].hasRecommendations
    modifies records
    ensures forall k :: 0 <= k < records.Length ==>
      records[k] == old(records[k]).(recommendations := LinkedTo(Target(names), recs, k),
                                     hasRecommendations := LinkedTo(Target(names), recs, k) != [])
  {
    ghost var base := records[..];
    for j := 0 to |recs|
      invariant forall k :: 0 <= k < records.Length ==>
        records[k] == base[k].(recommendations := LinkedTo(Target(names), recs[..j], k),
                               hasRecommendations := LinkedTo(Target(names), recs[..j], k) != [])
    {
      var matching := FindMatchingSection(names, recs[j].section);
      assert Target(names)(recs[j].section) == matching;
      Attach(records, base, Target(names), recs, j, matching);
    }
    assert recs[..|recs|] == recs;
  }

  /** One pass of the linking loop: recommendation `j` is appended to the record it goes
      to, which is then marked as having recommendations; the other records are left as
      they were. */
  method Attach(records: array<MappedSection>, ghost base: seq<MappedSection>, ghost target: string -> Option<nat>,
                recs: seq<Recommendation>, j: nat, matching: Option<nat>)
    requires records.Length == |base| && j < |recs| && matching == target(recs[j].section)
    requires matching.Some? ==> matching.value < records.Length
    requires forall k :: 0 <= k < records.Length ==>
      records[k] == base[k].(recommendations := LinkedTo(target, recs[..j], k),
                             hasRecommendations := LinkedTo(target, recs[..j], k) != [])
    modifies records
    ensures forall k :: 0 <= k < records.Length ==>
      records[k] == base[k].(recommendations := LinkedTo(target, recs[..j + 1], k),
                             hasRecommendations := LinkedTo(target, recs[..j + 1], k) != [])
  {
    LinkedToGrows(target, recs, j);
    if matching.Some? {
      var k := matching.value;
      records[k] := records[k].(recommendations := records[k].recommendations + [Link(recs[j])], hasRecommendations := true);
    }
  }

  /** Taking one more recommendation into account appends it to the section it goes to and
      leaves the others as they were. */
  lemma LinkedToGrows(target: string -> Option<nat>, recs: seq<Recommendation>, j: nat)
    requires j < |recs|
    ensures forall k: nat ::
      LinkedTo(target, recs[..j + 1], k)
        == LinkedTo(target, recs[..j], k) + if target(recs[j].section) == Some(k) then [Link(recs[j])] else []
  {
    assert recs[..j + 1][..j] == recs[..j];
  }

  /** Lines 340-342: every record gets the maximum priority of its recommendations. */
  method SetMaxPriorities(records: array<MappedSection>)
    modifies records
    ensures forall k :: 0 <= k < records.Length ==>
      records[k] == old(records[k]).(maxPriority := MaxPriority(old(records[k]).recommendations))
  {
    for k := 0 to records.Length
      invariant forall i :: 0 <= i < k ==>
        records[i] == old(records[i]).(maxPriority := MaxPriority(old(records[i]).recommendations))
      invariant forall i :: k <= i < records.Length ==> records[i] == old(records[i])
    {
      records[k] := records[k].(maxPriority := MaxPriority(records[k].recommendations));
    }
  }

  // ---------------------------------------------------------------------------
  // Where the recommendations go

  /** Number of recommendations for which `target` picks a section. */
  function MatchedCount(target: string -> Option<nat>, recs: seq<Recommendation>): (n: nat)
    ensures n <= |recs|
  {
    if |recs| == 0 then 0
    else MatchedCount(target, recs[..|recs| - 1]) + if target(recs[|recs| - 1].section).Some? then 1 else 0
  }

  /** Number of recommendations attached to the first `n` sections. */
  function LinkedTotal(target: string -> Option<nat>, recs: seq<Recommendation>, n: nat): nat
  {
    if n == 0 then 0 else LinkedTotal(target, recs, n - 1) + |LinkedTo(target, recs, n - 1)|
  }

  /** Linking distributes the recommendations: each one that matches a section is attached
      to exactly one record and the others to none, so the records together hold as many
      recommendations as match. */
  lemma LinkingDistributes(names: seq<string>, recs: seq<Recommendation>)
    ensures LinkedTotal(Target(names), recs, |names|) == MatchedCount(Target(names), recs)
  {
    Distributes(Target(names), recs, |names|);
  }

  /** When every pick lies below `n`, the first `n` records hold every picked
      recommendation. */
  lemma {:induction false} Distributes(target: string -> Option<nat>, recs: seq<Recommendation>, n: nat)
    requires forall i :: 0 <= i < |recs| ==> (target(recs[i].section).Some? ==> target(recs[i].section).value < n)
    ensures LinkedTotal(target, recs, n) == MatchedCount(target, recs)
  {
    if |recs| > 0 {
      var init := recs[..|recs| - 1];
      var m := target(recs[|recs| - 1].section);
      assert LinkedTotal(target, init, n) == MatchedCount(target, init) by {
        Distributes(target, init, n);
      }
      assert LinkedTotal(target, recs, n) ==
        LinkedTotal(target, init, n) + if m.Some? && m.value < n then 1 else 0 by {
        LinkedTotalStep(target, recs, n);
      }
    } else {
      NothingLinked(target, recs, n);
    }
  }

  /** Adding the last recommendation adds one to the total of the first `n` records exactly
      when it goes to one of them. */
  lemma {:induction false} LinkedTotalStep(target: string -> Option<nat>, recs: seq<Recommendation>, n: nat)
    requires |recs| > 0
    ensures var m := target(recs[|recs| - 1].section);
      LinkedTotal(target, recs, n) ==
      LinkedTotal(target, recs[..|recs| - 1], n) + if m.Some? && m.value < n then 1 else 0
  {
    if n > 0 {
      var init := recs[..|recs| - 1];
      var m := target(recs[|recs| - 1].section);
      assert |LinkedTo(target, recs, n - 1)| == |LinkedTo(target, init, n - 1)| + if m == Some(n - 1) then 1 else 0 by {
        LinkedToLast(target, recs, n - 1);
      }
      assert LinkedTotal(target, recs, n - 1) ==
        LinkedTotal(target, init, n - 1) + if m.Some? && m.value < n - 1 then 1 else 0 by {
        LinkedTotalStep(target, recs, n - 1);
      }
    }
  }

  /** Without recommendations no record receives any. */
  lemma {:induction false} NothingLinked(target: string -> Option<nat>, recs: seq<Recommendation>, n: nat)
    requires recs == []
    ensures LinkedTotal(target, recs, n) == 0
  {
    if n > 0 {
      NothingLinked(target, recs, n - 1);
    }
  }

  /** Section `k` receives the last recommendation exactly when it goes there. */
  lemma LinkedToLast(target: string -> Option<nat>, recs: seq<Recommendation>, k: nat)
    requires |recs| > 0
    ensures |LinkedTo(target, recs, k)| ==
      |LinkedTo(target, recs[..|recs| - 1], k)| + if target(recs[|recs| - 1].section) == Some(k) then 1 else 0
  {
  }
}
