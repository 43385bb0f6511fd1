/** Local structural check of a charter: for each of the eight PMI sections, which of its
    profile keywords occur in the document, how confident that makes the detection, a
    0-100 completeness score, the missing sections and advisory messages. */
module CharterValidator {
  import opened Levels
  import opened Text

  /** Section name and keyword profile, in the fixed section order. */
  const SectionKeywords: seq<(string, seq<string>)> := [
    ("Información Básica del Proyecto", [
      "project title", "project name", "nombre del proyecto", "título del proyecto",
      "project manager", "gerente del proyecto", "director del proyecto",
      "sponsor", "patrocinador", "sponsor del proyecto",
      "date", "fecha", "date of approval", "fecha de aprobación"]),
    ("Propósito y Justificación", [
      "business case", "caso de negocio", "justificación del proyecto",
      "problem statement", "declaración del problema", "problema",
      "strategic alignment", "alineación estratégica", "justificación",
      "purpose", "propósito", "razón del proyecto"]),
    ("Objetivos y Criterios de Éxito", [
      "objectives", "objetivos", "goals", "metas",
      "smart objectives", "objetivos smart",
      "deliverables", "entregables", "entregables del proyecto",
      "success criteria", "criterios de éxito", "kpis", "indicadores clave"]),
    ("Requisitos de Alto Nivel", [
      "requirements", "requisitos", "requisitos funcionales",
      "functional requirements", "non-functional requirements",
      "requisitos no funcionales", "scope", "alcance",
      "constraints", "restricciones", "limitaciones"]),
    ("Supuestos y Riesgos", [
      "assumptions", "supuestos", "suposiciones",
      "risks", "riesgos", "riesgos del proyecto",
      "dependencies", "dependencias", "dependencias del proyecto"]),
    ("Presupuesto y Recursos", [
      "budget", "presupuesto", "presupuesto del proyecto",
      "resources", "recursos", "recursos del proyecto",
      "timeline", "cronograma", "tiempo", "duración",
      "milestones", "hitos", "marcos del proyecto"]),
    ("Interesados", [
      "stakeholders", "interesados", "partes interesadas",
      "stakeholder", "equipo", "team", "roles",
      "responsibilities", "responsabilidades", "roles y responsabilidades"]),
    ("Autorización", [
      "approval", "aprobación", "autorización",
      "signatures", "firmas", "signature", "firma",
      "authorization", "autorizado por", "aprobado por"])
  ]

  /** The sections whose absence gets its own warning: the first three of the table. */
  const CriticalSections: seq<string> :=
    ["Información Básica del Proyecto", "Propósito y Justificación", "Objetivos y Criterios de Éxito"]

  const EmptyMessage: string := "El documento está vacío o no contiene texto válido"
  const IncompleteMessage: string :=
    "El charter parece estar incompleto. Considera agregar más secciones según el estándar PMI."
  const SolidMessage: string :=
    "El charter tiene una estructura sólida. Puedes mejorar agregando detalles en las secciones identificadas como parciales."

  datatype SectionStatus = SectionStatus(name: string, found: bool, confidence: Level, keywords: seq<string>)

  datatype ValidationResult = ValidationResult(
    completeness: nat,
    sections: seq<SectionStatus>,
    missingSections: seq<string>,
    suggestions: seq<string>)

  /** The section names, in table order (`Object.keys(SECTION_KEYWORDS)`). */
  function SectionNames(): (r: seq<string>)
    ensures |r| == |SectionKeywords|
    ensures forall i :: 0 <= i < |r| ==> r[i] == SectionKeywords[i].0
  {
    seq(|SectionKeywords|, i requires 0 <= i < |SectionKeywords| => SectionKeywords[i].0)
  }

  /** The keywords of `profile` whose lower-case form occurs in the lower-cased text,
      kept in profile order and in their original spelling. */
  function MatchedKeywords(lowered: string, profile: seq<string>): seq<string>
  {
    if |profile| == 0 then []
    else
      var last := profile[|profile| - 1];
      MatchedKeywords(lowered, profile[..|profile| - 1])
        + (if Contains(lowered, Lower(last)) then [last] else [])
  }

  /** A keyword is reported exactly when it is in the profile and occurs in the text. */
  lemma {:induction false} MatchedKeywordsExact(lowered: string, profile: seq<string>)
    ensures |MatchedKeywords(lowered, profile)| <= |profile|
    ensures forall x :: x in MatchedKeywords(lowered, profile) <==> x in profile && Contains(lowered, Lower(x))
  {
    if |profile| > 0 {
      var init := profile[..|profile| - 1];
      MatchedKeywordsExact(lowered, init);
      assert profile == init + [profile[|profile| - 1]];
    }
  }

  /** 3 or more matches: high; 1 or 2: medium; none: low. */
  function ConfidenceFor(count: nat): Level
  {
    if count >= 3 then High else if count >= 1 then Medium else Low
  }

  /** A section's contribution to the tally, in half points: 1 for high, 1/2 for medium. */
  function HalfPoints(c: Level): nat
  {
    match c
    case High => 2
    case Medium => 1
    case Low => 0
  }

  /** The status the detector reports for one table entry. */
  function StatusFor(lowered: string, entry: (string, seq<string>)): SectionStatus
  {
    var kws := MatchedKeywords(lowered, entry.1);
    SectionStatus(entry.0, |kws| >= 1, ConfidenceFor(|kws|), kws)
  }

  /** The tally `foundCount`, doubled so that it is a whole number. */
  function TotalHalfPoints(ss: seq<SectionStatus>): nat
  {
    if |ss| == 0 then 0
    else TotalHalfPoints(ss[..|ss| - 1]) + HalfPoints(ss[|ss| - 1].confidence)
  }

  /** The score, a percentage rounded half up, of a tally of `k` half points over eight
      sections. */
  function RoundedPercent(k: nat): (r: nat)
    ensures (r as real) - 0.5 <= (k as real) * 6.25 < (r as real) + 0.5
  {
    (625 * k + 50) / 100
  }

  /** The names of the sections not found, in section order. */
  function MissingSections(ss: seq<SectionStatus>): seq<string>
  {
    if |ss| == 0 then []
    else (if ss[0].found then [] else [ss[0].name]) + MissingSections(ss[1..])
  }

  /** The missing names that are among the three critical sections, in order. */
  function CriticalMissing(missing: seq<string>): seq<string>
  {
    if |missing| == 0 then []
    else (if missing[0] in CriticalSections then [missing[0]] else []) + CriticalMissing(missing[1..])
  }

  function MissingMessage(missing: seq<string>): string
  {
    "Se encontraron " + NatToString(|missing|) + " sección(es) faltante(s): " + Join(missing, ", ")
  }

  function CriticalMessage(critical: seq<string>): string
  {
    "Secciones críticas faltantes: " + Join(critical, ", ")
      + ". Estas secciones son esenciales para un charter completo."
  }

  /** The advisory messages for a non-empty document, in the order they are produced. */
  function Advice(missing: seq<string>, completeness: nat): seq<string>
  {
    (if |missing| > 0 then
       [MissingMessage(missing)]
       + (if |CriticalMissing(missing)| > 0 then [CriticalMessage(CriticalMissing(missing))] else [])
     else [])
    + (if completeness < 50 then [IncompleteMessage]
       else if completeness >= 70 then [SolidMessage]
       else [])
  }

  /** The inner loop of the detector: the keywords of one profile found in the text. */
  method CollectMatches(normalized: string, keywords: seq<string>) returns (matched: seq<string>)
    ensures matched == MatchedKeywords(normalized, keywords)
  {
    matched := [];
    for j := 0 to |keywords|
      invariant matched == MatchedKeywords(normalized, keywords[..j])
    {
      assert keywords[..j + 1][..j] == keywords[..j];
      if Contains(normalized, Lower(keywords[j])) {
        matched := matched + [keywords[j]];
      }
    }
    assert keywords[..|keywords|] == keywords;
  }

  /** The advice step of the detector: messages pushed one by one, in the order of `Advice`. */
  method BuildSuggestions(missing: seq<string>, completeness: nat) returns (suggestions: seq<string>)
    ensures suggestions == Advice(missing, completeness)
  {
    suggestions := [];
    if |missing| > 0 {
      suggestions := suggestions + [MissingMessage(missing)];
      var missingCritical := CriticalMissing(missing);
      if |missingCritical| > 0 {
        suggestions := suggestions + [CriticalMessage(missingCritical)];
      }
    }
    if completeness < 50 {
      suggestions := suggestions + [IncompleteMessage];
    } else if completeness >= 70 {
      suggestions := suggestions + [SolidMessage];
    }
  }

  /** The score is a percentage: 100 exactly when every section is high, and 0 exactly
      when none is found. */
  predicate ScoreMeaning(r: ValidationResult)
  {
    && r.completeness <= 100
    && (r.completeness == 100 <==> forall i :: 0 <= i < |r.sections| ==> r.sections[i].confidence == High)
    && (r.completeness == 0 <==> forall i :: 0 <= i < |r.sections| ==> !r.sections[i].found)
  }

  /** The result for an empty or blank document: nothing found, score 0, every section
      missing and carrying its whole keyword profile, one message. */
  function EmptyDocumentResult(): (r: ValidationResult)
    ensures |r.sections| == |SectionKeywords|
    ensures forall i :: 0 <= i < |r.sections| ==>
      r.sections[i] == SectionStatus(SectionKeywords[i].0, false, Low, SectionKeywords[i].1)
    ensures r.completeness == 0 && r.suggestions == [EmptyMessage]
    ensures r.missingSections == MissingSections(r.sections)
    ensures ScoreMeaning(r)
  {
    var sections := seq(|SectionKeywords|, i requires 0 <= i < |SectionKeywords| =>
      SectionStatus(SectionKeywords[i].0, false, Low, SectionKeywords[i].1));
    AllMissing(sections);
    ValidationResult(0, sections, SectionNames(), [EmptyMessage])
  }

  /** The detection loop of the detector: one status per section of the table, in order,
      and the running half-point tally. */
  method DetectSections(normalized: string, table: seq<(string, seq<string>)>)
    returns (sections: seq<SectionStatus>, foundHalves: nat)
    ensures |sections| == |table|
    ensures forall k :: 0 <= k < |sections| ==> sections[k] == StatusFor(normalized, table[k])
    ensures forall k :: 0 <= k < |sections| ==> sections[k].name == table[k].0 && Consistent(sections[k])
    ensures foundHalves == TotalHalfPoints(sections)
  {
    sections := [];
    foundHalves := 0;
    for i := 0 to |table|
      invariant |sections| == i
      invariant forall k :: 0 <= k < i ==> sections[k] == StatusFor(normalized, table[k])
      invariant foundHalves == TotalHalfPoints(sections)
    {
      var name := table[i].0;
      var keywords := table[i].1;
      var matched := CollectMatches(normalized, keywords);

      var confidence: Level;
      var found: bool;
      if |matched| >= 3 {
        confidence, found := High, true;
        foundHalves := foundHalves + 2;
      } else if |matched| >= 1 {
        confidence, found := Medium, true;
        foundHalves := foundHalves + 1;
      } else {
        confidence, found := Low, false;
      }
      var status := SectionStatus(name, found, confidence, matched);
      assert (sections + [status])[..i] == sections;
      sections := sections + [status];
    }
    forall k | 0 <= k < |sections| ensures sections[k].name == table[k].0 && Consistent(sections[k]) {
      StatusForConsistent(normalized, table[k]);
    }
  }

  /** The detector and scorer. For blank text every section is reported missing with its
      whole profile as `keywords`; otherwise each section carries exactly its matched
      keywords and the confidence they give, and the score, missing list and advice are
      derived from those statuses. */
  method ValidateCharterStructure(text: string) returns (r: ValidationResult)
    ensures |r.sections| == |SectionKeywords|
    ensures forall i :: 0 <= i < |r.sections| ==> r.sections[i].name == SectionKeywords[i].0
    ensures r.missingSections == MissingSections(r.sections)
    ensures ScoreMeaning(r)
    ensures IsBlank(text) ==>
      && r.completeness == 0
      && (forall i :: 0 <= i < |r.sections| ==>
            r.sections[i] == SectionStatus(SectionKeywords[i].0, false, Low, SectionKeywords[i].1))
      && r.suggestions == [EmptyMessage]
    ensures !IsBlank(text) ==>
      && (forall i :: 0 <= i < |r.sections| ==> r.sections[i] == StatusFor(Lower(text), SectionKeywords[i]))
      && r.completeness == RoundedPercent(TotalHalfPoints(r.sections))
      && r.suggestions == Advice(r.missingSections, r.completeness)
  {
    if IsBlank(text) {
      return EmptyDocumentResult();
    }
    r := ScoreDocument(text);
  }

  /** The non-blank path of the detector: detection over the lower-cased text, then the
      score, the missing list and the advice derived from the statuses. */
  method ScoreDocument(text: string) returns (r: ValidationResult)
    ensures |r.sections| == |SectionKeywords|
    ensures forall i :: 0 <= i < |r.sections| ==> r.sections[i].name == SectionKeywords[i].0
    ensures forall i :: 0 <= i < |r.sections| ==> r.sections[i] == StatusFor(Lower(text), SectionKeywords[i])
    ensures r.missingSections == MissingSections(r.sections)
    ensures ScoreMeaning(r)
    ensures r.completeness == RoundedPercent(TotalHalfPoints(r.sections))
    ensures r.suggestions == Advice(r.missingSections, r.completeness)
  {
    var normalized := Lower(text);
    var sections, foundHalves := DetectSections(normalized, SectionKeywords);
    CompletenessMeaning(sections);

    var completeness := RoundedPercent(foundHalves);
    var missing := MissingSections(sections);

    var suggestions := BuildSuggestions(missing, completeness);
    r := ValidationResult(completeness, sections, missing, suggestions);
  }

  /** When no section is found, the missing list is every name, in order. */
  lemma {:induction false} AllMissing(ss: seq<SectionStatus>)
    requires forall i :: 0 <= i < |ss| ==> !ss[i].found
    ensures MissingSections(ss) == seq(|ss|, i requires 0 <= i < |ss| => ss[i].name)
  {
    if |ss| > 0 {
      AllMissing(ss[1..]);
    }
  }

  /** A status is consistent when `found` means "confidence is not low", as the detector
      and the blank-document result both produce. */
  predicate Consistent(s: SectionStatus)
  {
    s.found == (s.confidence != Low)
  }

  /** The detector's verdict for one table entry is consistent and carries its name. */
  lemma StatusForConsistent(lowered: string, entry: (string, seq<string>))
    ensures Consistent(StatusFor(lowered, entry))
    ensures StatusFor(lowered, entry).name == entry.0
  {
  }

  /** The half-point tally is at most two per section, reaches that bound exactly when
      every section is high, and is zero exactly when no section is found. */
  lemma {:induction false} TallyBounds(ss: seq<SectionStatus>)
    requires forall i :: 0 <= i < |ss| ==> Consistent(ss[i])
    ensures TotalHalfPoints(ss) <= 2 * |ss|
    ensures TotalHalfPoints(ss) == 2 * |ss| <==> forall i :: 0 <= i < |ss| ==> ss[i].confidence == High
    ensures TotalHalfPoints(ss) == 0 <==> forall i :: 0 <= i < |ss| ==> !ss[i].found
  {
    if |ss| > 0 {
      var init := ss[..|ss| - 1];
      TallyBounds(init);
      assert forall i :: 0 <= i < |init| ==> init[i] == ss[i];
    }
  }

  /** The score of eight consistent statuses is between 0 and 100; it is 100 exactly when
      all eight are high and 0 exactly when none is found. It is below 50 exactly when the
      tally is under four sections, and at least 70 exactly when it reaches six. */
  lemma {:induction false} CompletenessMeaning(ss: seq<SectionStatus>)
    requires |ss| == |SectionKeywords|
    requires forall i :: 0 <= i < |ss| ==> Consistent(ss[i])
    ensures RoundedPercent(TotalHalfPoints(ss)) <= 100
    ensures RoundedPercent(TotalHalfPoints(ss)) == 100 <==> forall i :: 0 <= i < |ss| ==> ss[i].confidence == High
    ensures RoundedPercent(TotalHalfPoints(ss)) == 0 <==> forall i :: 0 <= i < |ss| ==> !ss[i].found
    ensures RoundedPercent(TotalHalfPoints(ss)) < 50 <==> TotalHalfPoints(ss) < 8
    ensures RoundedPercent(TotalHalfPoints(ss)) >= 70 <==> TotalHalfPoints(ss) >= 12
  {
    TallyBounds(ss);
  }

  /** A name is listed as missing exactly when some section with that name is not found. */
  lemma {:induction false} MissingSectionsExact(ss: seq<SectionStatus>)
    ensures forall x :: x in MissingSections(ss) <==> exists i :: 0 <= i < |ss| && !ss[i].found && ss[i].name == x
    ensures |MissingSections(ss)| == 0 <==> forall i :: 0 <= i < |ss| ==> ss[i].found
  {
    if |ss| > 0 {
      MissingSectionsExact(ss[1..]);
      assert forall i :: 1 <= i < |ss| ==> ss[1..][i - 1] == ss[i];
    }
  }

  lemma {:induction false} CriticalMissingExact(missing: seq<string>)
    ensures forall x :: x in CriticalMissing(missing) <==> x in missing && x in CriticalSections
  {
    if |missing| > 0 {
      CriticalMissingExact(missing[1..]);
      assert missing == [missing[0]] + missing[1..];
    }
  }

  /** For the eight detected sections, the missing-sections message appears exactly when a
      section is missing, the critical message exactly when one of the first three is, and
      the closing message depends on the tally: under four sections' worth gives
      "incomplete", six or more gives "solid". */
  lemma {:induction false} AdviceMeaning(ss: seq<SectionStatus>)
    requires |ss| == |SectionKeywords|
    requires forall i :: 0 <= i < |ss| ==> ss[i].name == SectionKeywords[i].0 && Consistent(ss[i])
    ensures
      var missing := MissingSections(ss);
      Advice(missing, RoundedPercent(TotalHalfPoints(ss))) ==
        (if exists i :: 0 <= i < |ss| && !ss[i].found then [MissingMessage(missing)] else [])
        + (if exists i :: 0 <= i < 3 && !ss[i].found then [CriticalMessage(CriticalMissing(missing))] else [])
        + (if TotalHalfPoints(ss) < 8 then [IncompleteMessage]
           else if TotalHalfPoints(ss) >= 12 then [SolidMessage]
           else [])
  {
    MissingSectionsExact(ss);
    CompletenessMeaning(ss);
    CriticalWarningMeaning(ss);
  }

  /** The critical-section warning is due exactly when one of the first three sections is
      missing. */
  lemma CriticalWarningMeaning(ss: seq<SectionStatus>)
    requires |ss| == |SectionKeywords|
    requires forall i :: 0 <= i < |ss| ==> ss[i].name == SectionKeywords[i].0
    ensures |CriticalMissing(MissingSections(ss))| > 0 <==> exists i :: 0 <= i < 3 && !ss[i].found
  {
    var missing := MissingSections(ss);
    MissingSectionsExact(ss);
    CriticalMissingExact(missing);
    if exists i :: 0 <= i < 3 && !ss[i].found {
      var i :| 0 <= i < 3 && !ss[i].found;
      assert ss[i].name in CriticalSections;
      assert ss[i].name in CriticalMissing(missing);
    }
    if |CriticalMissing(missing)| > 0 {
      var x := CriticalMissing(missing)[0];
      assert x in missing && x in CriticalSections;
      var i :| 0 <= i < |ss| && !ss[i].found && ss[i].name == x;
      CriticalAreFirstThree(i);
    }
  }

  /** The critical sections are exactly the first three of the table. */
  lemma CriticalAreFirstThree(i: nat)
    requires i < |SectionKeywords|
    ensures SectionKeywords[i].0 in CriticalSections <==> i < 3
  {
    var names := SectionNames();
    assert names == ["Información Básica del Proyecto", "Propósito y Justificación",
      "Objetivos y Criterios de Éxito", "Requisitos de Alto Nivel", "Supuestos y Riesgos",
      "Presupuesto y Recursos", "Interesados", "Autorización"];
    assert SectionKeywords[i].0 == names[i];
  }
}
