# Charter structural analysis, modelled in Dafny

This project models the part of the charter assistant that decides which of the eight
PMI project-charter sections a document contains. It has three parts:

- **Keyword detector and scorer** (`CharterValidator`, from `lib/validators/charterValidator.ts`).
  - For each of the eight sections, in table order, it collects the profile keywords that
    occur in the lower-cased text.
  - It grades each section: three or more hits is high, one or two is medium, none is low
    (the section is then missing).
  - It scores completeness as the rounded percentage of one point per high section and a
    half point per medium one. Half points are counted as whole numbers, so the rounding is
    exact integer arithmetic.
  - It lists the missing sections and builds the advisory messages.
- **Response shaper** (`CharterAnalyzer`, from the reply-handling part of
  `analyzeCharterWithClaude` in `lib/api/claudeCharterAnalyzer.ts`).
  - It checks its inputs: the API key, a non-blank charter, and a project type and stage.
  - It strips the Markdown fences around the model's JSON reply.
  - When parsing fails, it reports truncation or falls back to the `{...}` slice of the reply.
  - It range-checks the scores and forces the section list to exactly the eight canonical
    names.
  - It validates every recommendation and assembles the analysis.
  - The language-model call is replaced by its reply, and `JSON.parse` by a parameter
    `parse`.
- **Section mapper** (`SectionMapping`, from `components/charter/SectionMapping.ts`).
  - It finds each section's text span with a table of case-insensitive patterns.
  - It infers a severity from the analysis verdict.
  - It resolves each recommendation to a section with a three-tier matcher and attaches it
    there. It then records each section's maximum priority.

Shared pieces:
- `Text` models the JavaScript string operations the code uses: trim, lower-casing,
  indexOf/includes, lastIndexOf, startsWith/endsWith, join and object-literal lookup.
- `Patterns` models the regular expressions of the pattern table. Each is an alternation of
  literals, plus one `head.*tail` branch. Its match index is the leftmost position where
  some branch matches.
- `Levels` models the high/medium/low scale.

The imperative parts stay imperative:
- the validator's nested loops;
- `jsonText` reassigned step by step, and the recommendation-checking loop with its early
  exits;
- the in-place updates of the section records during linking.

Each of these is a method proved against a specification function. The properties the code
promises are proved as lemmas about those functions.

Where the code and its own comments disagree, the model follows the code. The pattern
type's comment (components/charter/SectionMapping.ts:35) and the 'Autorización' entry
(components/charter/SectionMapping.ts:69) say that a missing end pattern means "to the end
of the document". The extractor (components/charter/SectionMapping.ts:97-107) instead gives
such a section the same 1000-character window as a section whose end pattern does not match.

Two further details of the code are kept as written:
- An end match at offset 0 falls back to the window too, even if the end pattern matches
  again further on (components/charter/SectionMapping.ts:102).
- A keyword of the mapping table whose target section is not in the list is skipped, and
  the search goes on with the next keyword (components/charter/SectionMapping.ts:225-233).

## Model

| member | source | states |
|---|---|---|
| CharterValidator.ValidateCharterStructure | lib/validators/charterValidator.ts:69-160 | The score is at most 100. It is 100 iff every section is high and 0 iff none is found. Blank text gives score 0, every section missing with its whole keyword profile, and only the empty-document message. Otherwise the result has eight statuses in table order. Each holds the keywords found and the confidence they give. The score is the rounded half-point tally, the missing list is derived from the statuses, and the advice is derived from the missing list and the score. |
| CharterValidator.ScoreDocument | lib/validators/charterValidator.ts:84-160 | For a non-blank text there are eight statuses named in table order, each the status its matched keywords give. The score is the rounded half-point tally: at most 100, 100 iff every section is high, 0 iff none is found. The missing list is derived from the statuses and the advice from the missing list and the score. |
| CharterValidator.EmptyDocumentResult | lib/validators/charterValidator.ts:70-82 | The blank-document result: eight sections named in table order, not found, low, each carrying its full profile; score 0, which agrees with none being found; all names missing; one message. |
| CharterValidator.AllMissing | lib/validators/charterValidator.ts:73-79 | When no section is found, the missing list is every name in order. |
| CharterValidator.DetectSections | lib/validators/charterValidator.ts:88-122 | The detection loop yields one status per table entry, in table order, each being the status its matched keywords give. Each carries its table name and is found exactly when its confidence is not low. The half-point tally of those statuses comes with them. |
| CharterValidator.CollectMatches | lib/validators/charterValidator.ts:90-97 | The inner loop collects exactly the matched keywords of the profile, in profile order. |
| CharterValidator.MatchedKeywordsExact | lib/validators/charterValidator.ts:90-97 | A keyword is reported iff it is in the profile and its lower-case form occurs in the lower-cased text; never more keywords than the profile has. |
| CharterValidator.StatusForConsistent | lib/validators/charterValidator.ts:103-121 | A detected status is found exactly when its confidence is not low, and carries the table name. |
| CharterValidator.RoundedPercent | lib/validators/charterValidator.ts:124-126 | The integer score lies within one half of 6.25 times the half-point tally, rounding halves up as Math.round does. |
| CharterValidator.TallyBounds | lib/validators/charterValidator.ts:103-126 | The tally is at most two half points per section. It reaches that bound iff every section is high, and is zero iff none is found. |
| CharterValidator.CompletenessMeaning | lib/validators/charterValidator.ts:103-126 | For eight sections the score is at most 100. It is 100 iff all are high, 0 iff none is found, below 50 iff the tally is under 4 points, and at least 70 iff the tally is 6 points or more. |
| CharterValidator.MissingSectionsExact | lib/validators/charterValidator.ts:129-131 | A name is listed as missing iff some section with that name is not found; the list is empty iff all are found. |
| CharterValidator.CriticalMissingExact | lib/validators/charterValidator.ts:140-141 | The critical list holds exactly the missing names that are among the three critical sections. |
| CharterValidator.CriticalAreFirstThree | lib/validators/charterValidator.ts:140 | A section of the table is critical iff it is one of the first three. |
| CharterValidator.CriticalWarningMeaning | lib/validators/charterValidator.ts:139-145 | The critical-sections message is due iff one of the first three sections is missing. |
| CharterValidator.BuildSuggestions | lib/validators/charterValidator.ts:134-152 | The messages are pushed in the order the advice specification gives. |
| CharterValidator.AdviceMeaning | lib/validators/charterValidator.ts:134-152 | The count message appears iff a section is missing, and the critical message iff one of the first three is missing. Then comes "incomplete" iff the tally is under 4 points, "solid" iff it is 6 or more, and nothing in between. |
| Text.Trim | lib/validators/charterValidator.ts:70 | Trimming removes only white space on both sides. The result neither starts nor ends with white space, and it is empty iff the text is all white space. |
| Text.Lower | lib/validators/charterValidator.ts:84 | Lower-casing keeps the length and lowers each character. |
| Text.IndexOf | components/charter/SectionMapping.ts:290 | The result is the first occurrence of the needle, or -1 iff there is none. |
| Text.LastIndexOfChar | lib/api/claudeCharterAnalyzer.ts:350 | The result is the last position holding the character, or -1 when there is none. |
| Text.Lookup | components/charter/SectionMapping.ts:280 | The result is absent iff the key is not in the table, and otherwise a value stored under the key. |
| Levels.ParseLevel | lib/api/claudeCharterAnalyzer.ts:415 | A string is accepted iff it is one of 'high', 'medium', 'low', and the level returned has that label. |
| Patterns.FirstMatch | components/charter/SectionMapping.ts:82 | The match index is a position where the pattern matches, with no earlier one; none iff it matches nowhere. |
| CharterAnalyzer.AnalyzeCharter | lib/api/claudeCharterAnalyzer.ts:276-434 | Errors come in source order: missing key, blank charter, missing type or stage, then a non-text reply. Otherwise the result is the fence-stripped, parsed, checked and assembled analysis of the reply. |
| CharterAnalyzer.OpeningFenceLength | lib/api/claudeCharterAnalyzer.ts:324-326 | The opening-fence strip removes the fence, the `json` tag when present, and all white space after it. The text then starts with a visible character or is empty. |
| CharterAnalyzer.StripClosingFence | lib/api/claudeCharterAnalyzer.ts:329-331 | The closing strip cuts at the leftmost point where an optional newline, the fence and only white space run to the end. |
| CharterAnalyzer.JsonFenceIsFence | lib/api/claudeCharterAnalyzer.ts:324 | A reply opening with the tagged fence opens with the fence, so the second test of the condition covers the first. |
| CharterAnalyzer.UnfencedReplyIsTrimmed | lib/api/claudeCharterAnalyzer.ts:321-333 | A reply with no fence at either end is only trimmed. |
| CharterAnalyzer.FencedReplyRoundTrip | lib/api/claudeCharterAnalyzer.ts:321-333 | Wrapping a body in a fenced block, tagged `json` or untagged, and cleaning it gives back the trimmed body. |
| CharterAnalyzer.OpeningOfWrapped | lib/api/claudeCharterAnalyzer.ts:324-326 | On a wrapped body, the opening strip leaves the body from its first visible character, or just the closing fence when the body is blank. |
| CharterAnalyzer.WrappedTail | lib/api/claudeCharterAnalyzer.ts:325 | The white space skipped after the tag ends at the body's first visible character or at the closing fence. |
| CharterAnalyzer.ClosingOfWrapped | lib/api/claudeCharterAnalyzer.ts:329-331 | The closing strip removes exactly the newline and fence appended to a text. |
| CharterAnalyzer.JsonSlice | lib/api/claudeCharterAnalyzer.ts:349-352 | The fallback slice runs from the first `{` of the text to its last `}`, inclusive, and that `{` comes first. There is none iff no `{` precedes a `}`. |
| CharterAnalyzer.ParseReply | lib/api/claudeCharterAnalyzer.ts:336-362 | A parse that succeeds is used. If it fails and the right-trimmed text ends with neither `}` nor `]`, the error is truncation. If it ends with one of them, the result is "no JSON" when there is no slice, the parse of the slice when that succeeds, and "unparsable" otherwise. "No JSON" means no `{` precedes a `}`. The only errors are truncated, no JSON and unparsable. |
| CharterAnalyzer.FencedReplyAnalysed | lib/api/claudeCharterAnalyzer.ts:321-362 | A fenced reply whose trimmed body parses is analysed as that body. |
| CharterAnalyzer.LastNamed | lib/api/claudeCharterAnalyzer.ts:390-392 | The entry kept for a name is the last entry with that name. It is absent iff no entry has the name. |
| CharterAnalyzer.NormalizeConfidence | lib/api/claudeCharterAnalyzer.ts:397 | The confidence is the level the entry names, and low when the entry is falsy or names no level. The result is low or the level the entry names. |
| CharterAnalyzer.CorrectedConfidenceAgrees | lib/api/claudeCharterAnalyzer.ts:397 | Wherever the code as written yields one of the three labels, the corrected confidence is that level. |
| CharterAnalyzer.AsWrittenConfidenceEscapesLevels | lib/api/claudeCharterAnalyzer.ts:397 | As written, a confidence "alta" passes through unchanged and is not a level. |
| CharterAnalyzer.NormalizeSections | lib/api/claudeCharterAnalyzer.ts:378-406 | The result is exactly the eight required names in canonical order. A section is found iff the last entry of that name has found literally `true`. Such an entry gives its corrected confidence and its completeness unchanged. An absent name gives low confidence and no completeness. Other names are dropped. |
| CharterAnalyzer.ToRecommendation | lib/api/claudeCharterAnalyzer.ts:424-430 | A validated recommendation is an object and keeps its priority label, section, issue and suggestion. |
| CharterAnalyzer.CheckRecommendations | lib/api/claudeCharterAnalyzer.ts:413-421 | Validation succeeds iff every recommendation is not null and has a valid priority and non-empty section, issue and suggestion, keeping them all in order. Otherwise the error is that of a failing recommendation with every earlier one valid. |
| CharterAnalyzer.FirstFailureIsReported | lib/api/claudeCharterAnalyzer.ts:413-421 | The error reported is that of the first failing recommendation. |
| CharterAnalyzer.ShapeAnalysis | lib/api/claudeCharterAnalyzer.ts:364-434 | The result is a success iff both scores are in range, sections is an array without null, the four lists are arrays and every recommendation is valid. Otherwise the error is that of the first check to fail, in source order: score, completeness, sections not an array, a null section, a missing list, then the first failing recommendation. On success, both scores and the four arrays pass through unchanged, sections are normalised, every recommendation is kept, and the requested type and stage are echoed. |
| CharterAnalyzer.ValidateAnalysis | lib/api/claudeCharterAnalyzer.ts:364-434 | The checks run in source order and give the shaped analysis. |
| CharterAnalyzer.ValidateRecommendations | lib/api/claudeCharterAnalyzer.ts:413-421 | The loop stops at the first failing recommendation, which agrees with the specification of the check. |
| SectionMapping.PatternTableCoversSections | components/charter/SectionMapping.ts:21-71 | The standard order equals the analyser's required names, and every one of them has a pattern. |
| SectionMapping.ExtractSectionWithPattern | components/charter/SectionMapping.ts:76-131 | With no start match the result is ("", -1, -1, incomplete). Otherwise the start is the leftmost start match and 0 ≤ start ≤ end ≤ length. The end lies EndOffset characters after the start. The content is the trimmed span, and it is complete iff longer than 50 characters. |
| SectionMapping.EndOffset | components/charter/SectionMapping.ts:97-107 | The end offset is the first end match when it is positive, and otherwise the window cut at the end of the text. |
| SectionMapping.ReconcileSpan | components/charter/SectionMapping.ts:280-301 | With no pattern or a blank text, the record shows the not-found text at -1..-1. An empty extraction shows it at the extractor's indices. Otherwise the content is shown at the first occurrence of its first 50 characters, with 0 ≤ start ≤ end ≤ length and end − start = content length. |
| SectionMapping.ContentOccurs | components/charter/SectionMapping.ts:288-292 | The head of the extracted content is always found in the text, so the -1 fallbacks are never taken and the shown span stays inside the text. |
| SectionMapping.InferSeverity | components/charter/SectionMapping.ts:264-269 | A missing section is high severity. For a found one, severity and confidence are mirror images (high↔low, medium↔medium). |
| SectionMapping.MaxPriority | components/charter/SectionMapping.ts:136-144 | The result is none iff there are no recommendations. Otherwise it is a priority some recommendation has, and no lower than any of them. |
| SectionMapping.MaxPriorityAppend | components/charter/SectionMapping.ts:136-144 | Attaching a recommendation makes the maximum the larger of the old maximum and its priority. |
| SectionMapping.FirstFitting | components/charter/SectionMapping.ts:157 | The search finds the first name meeting the criterion, or none iff no name does. |
| SectionMapping.ExplicitTier | components/charter/SectionMapping.ts:224-233 | The keyword tier finds nothing iff no keyword of the table both occurs in the label and has its section listed. |
| SectionMapping.ExplicitSearch | components/charter/SectionMapping.ts:224-233 | The keyword loop with its early return agrees with the keyword tier. |
| SectionMapping.ExplicitTierPicksFirst | components/charter/SectionMapping.ts:224-233 | The keyword tier resolves to the section of the first applicable keyword, in table order. |
| SectionMapping.MatchingSection | components/charter/SectionMapping.ts:149-248 | A match is an index into the section list. |
| SectionMapping.ExactTierWins | components/charter/SectionMapping.ts:153-162 | When some name equals the label ignoring case, the match is the first such name. |
| SectionMapping.ExplicitTierWins | components/charter/SectionMapping.ts:164-233 | With no case-insensitive match, the match is the first name equal to the section of the first applicable keyword of the table. |
| SectionMapping.OverlapTierDecides | components/charter/SectionMapping.ts:235-247 | With neither earlier tier applying, the match is the first name containing, or contained in, the lower-cased label. There is no match iff no name overlaps the label. |
| SectionMapping.FindMatchingSection | components/charter/SectionMapping.ts:149-248 | The matching loop with its early returns agrees with the three-tier specification. |
| SectionMapping.InitialRecord | components/charter/SectionMapping.ts:272-311 | A new record has the verdict's name, found flag and confidence. Its severity is inferred from them, and it has no recommendations and no maximum priority yet. |
| SectionMapping.MapCharterToSections | components/charter/SectionMapping.ts:254-359 | There is one record per verdict, in order. Each is its initial record with exactly the recommendations that match it, in input order. It has recommendations iff that list is non-empty, and its maximum priority is that of the list. No other field changes. |
| SectionMapping.LinkRecommendations | components/charter/SectionMapping.ts:317-337 | After linking, each record holds the recommendations matching it, in order, and is flagged iff it holds any. Nothing else changes. |
| SectionMapping.Attach | components/charter/SectionMapping.ts:324-333 | One pass appends the recommendation to the record it goes to and flags that record. Every record then holds what the recommendations so far give it. |
| SectionMapping.LinkedToGrows | components/charter/SectionMapping.ts:324-333 | One more recommendation is appended to the section it goes to, and the others are unchanged. |
| SectionMapping.SetMaxPriorities | components/charter/SectionMapping.ts:340-342 | Each record gets the maximum priority of its recommendations and nothing else changes. |
| SectionMapping.LinkingDistributes | components/charter/SectionMapping.ts:317-337 | Together the records hold exactly as many recommendations as match some section. So each matching recommendation is attached once and the others are dropped. |
| SectionMapping.Distributes | components/charter/SectionMapping.ts:317-337 | When every pick lies among the first n records, those records together hold every recommendation that was picked. |
| SectionMapping.LinkedTotalStep | components/charter/SectionMapping.ts:324-333 | The last recommendation adds one to the first n records' total iff it matches one of them. |
| SectionMapping.LinkedToLast | components/charter/SectionMapping.ts:324-333 | A record receives the last recommendation iff that recommendation matches it. |

## Left out

- Prompt builders (lib/api/claudeCharterAnalyzer.ts:33-262): these only produce text for the model, so there is nothing to verify.
- The model call (lib/api/claudeCharterAnalyzer.ts:288-317) and `JSON.parse` (lib/api/claudeCharterAnalyzer.ts:338 and 354):
  - The client call becomes an optional reply, where none means the first content block is not text.
  - `JSON.parse` becomes the parameter `parse`.
  - The API-key environment variable becomes a boolean.
- Catch block (lib/api/claudeCharterAnalyzer.ts:437-464): the rewriting of error messages and HTTP status codes is message plumbing. The model returns the error kinds thrown before it.
- Logging: every `console.log`/`console.error` is left out.
- Catch path in extractSectionWithPattern (components/charter/SectionMapping.ts:122-130): nothing in the model can throw, so that path is never taken.
- Unicode case folding: lower-casing and the regular expressions' `i` flag are modelled for ASCII and Latin-1 letters only. JavaScript folds the whole of Unicode.
- Text lengths and indices count code points, not UTF-16 units. They differ only for characters outside the Basic Multilingual Plane.
- Regular expressions: only the constructs the pattern table uses are modelled, namely literal alternatives and one `head.*tail` branch.
- Scores are modelled as reals, standing for the double `JSON.parse` produces. A literal too large for a double, such as `1e999`, parses to Infinity. The model stands for it by any number above 100, which the range check rejects just as it rejects Infinity. NaN cannot come out of `JSON.parse`.
- A `null` recommendation makes reading its priority throw a TypeError (lib/api/claudeCharterAnalyzer.ts:415). It is modelled as its own error, MalformedRecommendation, reported in its place in the loop. The catch block's rewriting of that message is left out with the rest of the catch block.
- Raw recommendation fields are modelled as strings, with an absent field as the empty string; the checks treat both alike. The source passes recommendation objects through with any extra properties. The model keeps only the four fields it validates.
- Object-literal lookups (SECTION_PATTERNS by name) know only the table's own keys. In JavaScript, names such as "constructor" reach inherited properties. The analyser never produces such names.
- NormalizeSections: the model uses the corrected confidence of the finding below. In the source, a found section whose confidence is any other truthy value, such as "alta" or "HIGH", reaches inferSeverity (components/charter/SectionMapping.ts:264-268) as neither 'low' nor 'medium', so its severity is 'low'. In the model that section has Low confidence, so its severity is high.
- MapCharterToSections: the records the source mutates in place are modelled as elements of a fresh local array, overwritten with updated values. No record is shared, so aliasing cannot arise.
- ValidateCharterStructure: a `null` or `undefined` text cannot be represented. The empty string is covered by the blank case.
- SECTION_ORDER (components/charter/SectionMapping.ts:21-30) is declared but never read by the source. It appears only in PatternTableCoversSections.

## Findings

| source | as written | input that shows it | evidently intended | confidence | as-written member | corrected member |
|---|---|---|---|---|---|---|
| lib/api/claudeCharterAnalyzer.ts:397 | The section confidence defaults to 'low' only when it is falsy. Any other value passes through unchanged, which breaks the declared type 'high' \| 'medium' \| 'low' (lib/api/claudeCharterAnalyzer.ts:14-19). | A section entry with confidence "alta" (or 5, or true). | The confidence is one of the three levels, and 'low' when the reply names none. | medium, not executed | CharterAnalyzer.AsWrittenConfidenceEscapesLevels | CharterAnalyzer.NormalizeConfidence |
