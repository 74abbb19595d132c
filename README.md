# ADGM legal-document review core, modelled in Dafny

This project models the logic of an ADGM (Abu Dhabi Global Market) corporate
document review tool and proves properties of that logic. The tool works in
five steps:

1. It labels an uploaded `.docx` file by keywords.
2. It groups the file's paragraphs into a title, sections and loose paragraphs.
3. It runs four compliance rule passes over the text and scores the result:
   - jurisdiction;
   - required clauses;
   - ambiguous language;
   - formatting.
4. It checks a set of uploads against the mandatory-document checklist of the
   legal process they appear to belong to.
5. It enriches each issue with references from a small legal knowledge base and
   writes the text of the review comments and the compliance summary.

Modules, one per source file plus three shared ones:

| module | file | models |
|---|---|---|
| `ComplianceChecker` | compliance_checker.dfy | src/adgm_checker.py: the rule tables, the four `check_*` passes and the score; the three passes with a loop are methods proved against a specification function, and the formatting pass, which has no loop, is a function |
| `ChecklistVerifier` | checklist_verifier.dfy | src/checklist_verifier.py: the process catalogue, `_normalize_filename`, `match_document_type`, `identify_process_type`, `verify_checklist` (nested loops over uploads and requirements), the description, the user message and `get_adgm_references` |
| `DocumentProcessor` | document_processor.dfy | src/document_processor.py: `can_process`, `identify_document_type` and the title/section grouping loop of `extract_structure` |
| `RagEngine` | rag_engine.dfy | src/rag_engine.py: the knowledge base and links tables, `search_legal_knowledge`, the relevance score, guidance, reference lookup, citation, links, issue category and `enhance_compliance_analysis` |
| `CommentGenerator` | comment_generator.dfy | src/comment_generator.py: `_format_comment_text`, the field defaults of `_add_issue_comment`, `_extract_keywords_from_issue`, `_find_target_paragraph` and `_format_summary_comment` |
| `IssueDicts` | issue_dicts.dfy | the issue dictionaries passed between the checker, the knowledge lookup and the comment builder |
| `PhrasePatterns` | phrase_patterns.dfy | the regular expressions of the rule tables, which all have the form "words separated by `\s+`, some words with an optional trailing `s`", matched case-insensitively |
| `AsciiText` | ascii_text.dfy | the Python `str` operations used: `lower`, `strip`, `split`, `join`, `isupper`, `in`, `startswith`, `endswith`, `replace` and `str(int)` |

Modelling choices:

- **Loops become methods.** Where the source builds a list or set step by step,
  the model is a method whose `ensures` ties the result to a specification
  function. The properties are then proved as lemmas about that function.
  Code without a loop, such as the formatting pass, stays a function.
- **Pure code becomes functions.** This covers the if/elif chains, the early-return
  searches and the lookups.
- **Dictionaries.** An issue dictionary is a `map<string, Value>`. The structure
  argument of the formatting pass and the compliance result read by the summary
  are records of `Option` fields, so that a missing key stays visible.
- **Real-valued results.** The score and the completeness percentage are `real`
  and unrounded. Integers are unbounded, as Python's are.
- **Text extraction** inside `verify_checklist` is a parameter: a map from file
  path to extracted text. A path that is not in the map stands for a failed
  extraction, which yields `""`.

## Model

| member | source | states |
|---|---|---|
| AsciiText.TrimLeftSpec | src/document_processor.py:73-75 | leading-whitespace removal drops a prefix made only of whitespace and stops at the first other character |
| AsciiText.TrimRightSpec | src/document_processor.py:73-75 | trailing-whitespace removal drops a suffix made only of whitespace and stops at the last other character |
| AsciiText.StripTrimmed | src/document_processor.py:73 | a stripped string is no longer than the input and neither starts nor ends with whitespace |
| AsciiText.StripEmptyIffBlank | src/document_processor.py:73-75 | `strip()` is empty exactly when every character is whitespace, so exactly the blank paragraphs are skipped |
| AsciiText.ContainsAt | src/checklist_verifier.py:224 | a position where `sub` occurs makes the `in` test true |
| AsciiText.ContainsOccurs | src/checklist_verifier.py:224 | when the `in` test is true, there is a position where `sub` occurs |
| AsciiText.JoinWithContains | src/checklist_verifier.py:397 | every part of a joined list occurs in the joined text |
| AsciiText.SplitJoinRoundTrip | src/comment_generator.py:139 | splitting `c.join(parts)` on `c` gives the parts back when no part contains `c` |
| AsciiText.WordsOfJoin | src/checklist_verifier.py:292 | splitting on whitespace a space-join of words gives back those words |
| AsciiText.CollapseIdempotent | src/checklist_verifier.py:292 | `' '.join(s.split())` applied twice equals applying it once |
| AsciiText.NatToStringRoundTrip | src/checklist_verifier.py:395 | the decimal digits `str(n)` prints read back as `n` |
| AsciiText.IntToString | src/comment_generator.py:259 | `str(i)` starts with '-' exactly when `i` is negative |
| PhrasePatterns.SpaceRunEnd | src/adgm_checker.py:29-39 | `\s+` consumes the whole whitespace run: every character up to the end is whitespace and the next is not |
| PhrasePatterns.MatchTokens | src/adgm_checker.py:29-39 | a match starting at `i` ends within the text, and after `i` when the first word is non-empty |
| PhrasePatterns.FindAllEmptyIff | src/adgm_checker.py:90-91 | `re.finditer` from position `i` yields nothing exactly when the pattern matches at no position from `i` |
| PhrasePatterns.FindAllOccurrence | src/adgm_checker.py:90-91 | every match `re.finditer` yields is the text `text[k..e]` of a match of the pattern at some position `k` |
| ComplianceChecker.TablesWellFormed | src/adgm_checker.py:28-40 | every pattern of the ADGM, federal-court and ambiguous-language tables is a non-empty list of non-empty words |
| ComplianceChecker.JurisdictionError | src/adgm_checker.py:92-100 | the issue for one forbidden-court match is High, of type "Jurisdiction Error", and its clause is the matched text |
| ComplianceChecker.MissingClause | src/adgm_checker.py:133-141 | the issue for a missing clause is High, of type "Missing Required Clause", and its clause is the missing one |
| ComplianceChecker.AmbiguousLanguage | src/adgm_checker.py:161-169 | the issue for an ambiguous phrase is Medium, of type "Ambiguous Language", and carries the pattern's description and the matched text |
| ComplianceChecker.JurisdictionErrors | src/adgm_checker.py:91-100 | one Jurisdiction Error per match, in match order |
| ComplianceChecker.JurisdictionErrorsAppend | src/adgm_checker.py:89-100 | the errors for two match lists in a row are the errors for the two lists concatenated |
| ComplianceChecker.AppendJurisdictionErrors | src/adgm_checker.py:91-100 | the inner loop appends exactly the errors for the matches of one pattern |
| ComplianceChecker.CheckJurisdictionCompliance | src/adgm_checker.py:83-119 | returns the errors for the forbidden-court matches, pattern after pattern, followed by one Missing ADGM Reference issue when the ADGM patterns matched nothing |
| ComplianceChecker.MatchesEmptyIff | src/adgm_checker.py:89-91 | the first `n` patterns give no match exactly when none of them occurs |
| ComplianceChecker.MatchesUpToIndex | src/adgm_checker.py:89-91 | each collected match is the `m`-th `finditer` match of some pattern `j` |
| ComplianceChecker.MatchIsOccurrence | src/adgm_checker.py:89-91 | each collected match is the text of a match of some pattern `j` at some position in the content |
| ComplianceChecker.JurisdictionErrorIsOccurrence | src/adgm_checker.py:89-100 | the `i`-th issue of a document with `i` below the match count is the Jurisdiction Error for an actual occurrence of a forbidden-court pattern |
| ComplianceChecker.NoAdgmReferenceIff | src/adgm_checker.py:103-108 | `adgm_references` is 0 exactly when none of the four ADGM patterns occurs |
| ComplianceChecker.JurisdictionIssueCounts | src/adgm_checker.py:89-117 | exactly one Missing ADGM Reference issue when no ADGM pattern occurs and none otherwise, whatever the forbidden-court hits; one Jurisdiction Error per forbidden-court match |
| ComplianceChecker.CountSeverity | src/adgm_checker.py:215-217 | a severity count never exceeds the number of issues |
| ComplianceChecker.CountSeverityAppend | src/adgm_checker.py:213-217 | severity counts add up over the concatenation of the passes' lists |
| ComplianceChecker.SeverityPartition | src/adgm_checker.py:214-217 | when every severity is High, Medium or Low, the three counts add up to `total_issues` |
| ComplianceChecker.MissingClauses | src/adgm_checker.py:131-132 | no more clauses are reported missing than the type lists |
| ComplianceChecker.MissingClauseIssues | src/adgm_checker.py:131-141 | one Missing Required Clause issue per missing clause, in list order |
| ComplianceChecker.CheckRequiredClauses | src/adgm_checker.py:121-143 | no issue for a type without a clause list; otherwise one issue per listed clause that is absent from the lowered text, in list order |
| ComplianceChecker.MissingClausesIff | src/adgm_checker.py:131-132 | a clause is reported exactly when it is listed and is not a substring of the lowered text |
| ComplianceChecker.ClauseIssuesEmpty | src/adgm_checker.py:125-141 | an unknown type yields no issue; a known type yields none exactly when every listed clause occurs |
| ComplianceChecker.BoardResolutionWithoutClauses | src/adgm_checker.py:131-141 | a Board Resolution containing none of its five clauses gets the five issues, in list order |
| ComplianceChecker.AllMissing | src/adgm_checker.py:131-141 | when no listed clause occurs, every clause is missing, in list order |
| ComplianceChecker.AmbiguousIssues | src/adgm_checker.py:160-169 | one Ambiguous Language issue per match, in order, each with the pattern's description |
| ComplianceChecker.AmbiguousIssuesAppend | src/adgm_checker.py:158-169 | the issues for two match lists in a row are the issues for the two lists concatenated |
| ComplianceChecker.AppendAmbiguousIssues | src/adgm_checker.py:160-169 | the inner loop appends exactly the issues for the matches of one pattern |
| ComplianceChecker.CheckLegalLanguage | src/adgm_checker.py:145-171 | returns, pattern after pattern in table order, one Medium issue per match |
| ComplianceChecker.LanguageIssueIsOccurrence | src/adgm_checker.py:158-169 | each language issue is the one for an actual occurrence of one of the five patterns, with that pattern's description, so repeated phrases count once each |
| ComplianceChecker.LanguageIssuesEmptyIff | src/adgm_checker.py:150-169 | no language issue exactly when none of the five patterns occurs |
| ComplianceChecker.FormattingIssues | src/adgm_checker.py:173-201 | Missing Title exactly when the title is absent or empty, Poor Structure exactly when the sections are absent or fewer than two, and nothing else; the issue count is the number of these conditions that hold, and when both hold Missing Title comes first; a missing key is never an error |
| ComplianceChecker.ExtractedFormatting | src/adgm_checker.py:178-199 | on the structure `extract_structure` builds, the pass flags an empty title and fewer than two sections, and the issue count is the number of these that hold |
| ComplianceChecker.CheckCompliance | src/adgm_checker.py:203-245 | issues in the order jurisdiction, clauses, language, formatting; the three severity counts add up to the total; the score is the weighted formula; compliant exactly when there is no issue |
| ComplianceChecker.ReportCounts | src/adgm_checker.py:213-245 | with known severities the counts add up to the total, and the score is at least 80 exactly when there is no issue |
| ComplianceChecker.AllIssuesKnownSeverities | src/adgm_checker.py:207-217 | every issue any pass emits has severity High, Medium or Low |
| ComplianceChecker.LanguageKnownSeverities | src/adgm_checker.py:158-169 | every language issue is Medium |
| ComplianceChecker.ScoreFormula | src/adgm_checker.py:219-225 | with at least one issue the `max(0, ...)` never clips: the score is 100 − 100·(3h+2m+l)/(3·total) |
| ComplianceChecker.ScoreBounds | src/adgm_checker.py:219-225 | the score lies in [0, 100], and at most 100 − 100/3 when there is an issue |
| ComplianceChecker.ScoreZeroIffAllHigh | src/adgm_checker.py:222-225 | with at least one issue, the score is 0 exactly when every issue is High |
| ComplianceChecker.ScoreMonotoneInHigh | src/adgm_checker.py:219-225 | adding one High issue never raises the score |
| ComplianceChecker.CompliantIffNoIssues | src/adgm_checker.py:219-245 | `is_compliant` (unrounded score ≥ 80) holds exactly when `total_issues` is 0 |
| IssueDicts.IssueDictRoundTrip | src/adgm_checker.py:233-243 | an issue's dictionary has exactly the seven text keys, and reading them back gives the issue |
| DocumentProcessor.BaseNameStart | src/document_processor.py:25 | the last path component starts after the last '/' and contains no '/' |
| DocumentProcessor.LastDot | src/document_processor.py:25 | the position of the last '.' in the path, if there is one |
| DocumentProcessor.ExtensionAt | src/document_processor.py:25 | `os.path.splitext` gives the suffix from the last dot when the base name has a non-dot character before it |
| DocumentProcessor.LastDotAt | src/document_processor.py:25 | a dot with no dot after it is the last dot |
| DocumentProcessor.CanProcessOnlyDocx | src/document_processor.py:23-26 | an accepted path ends in ".docx" in any case, and its base name has a non-dot character before that suffix |
| DocumentProcessor.CanProcessDocx | src/document_processor.py:23-26 | conversely, every such path is accepted |
| DocumentProcessor.CanProcessExamples | src/document_processor.py:23-26 | "contract.DOCX" is accepted; "document.pdf", "document" and ".docx" are not |
| DocumentProcessor.ContainsAnyIff | src/document_processor.py:108 | `any(k in s for k in keywords)` holds exactly when some keyword occurs in `s` |
| DocumentProcessor.IdentifyDocumentType | src/document_processor.py:103-135 | the label is always one of the 13 fixed labels, and the structure argument plays no part |
| DocumentProcessor.MemorandumLabels | src/document_processor.py:108-111 | text containing "memorandum of association" is labelled Articles of Association; Memorandum of Association is returned exactly when both words occur but neither full phrase does |
| DocumentProcessor.UnknownIffNoKeyword | src/document_processor.py:103-135 | "Unknown Document Type" is returned exactly when no branch keyword occurs in the lowered text |
| DocumentProcessor.KeptStripped | src/document_processor.py:73-75 | the texts that survive the blank-paragraph filter are non-blank and already stripped |
| DocumentProcessor.KeptAppend | src/document_processor.py:72-75 | the filter applied to two paragraph lists in a row equals the filter applied to their concatenation |
| DocumentProcessor.HeadingFlags | src/document_processor.py:77-80 | one heading flag per kept paragraph |
| DocumentProcessor.CountSectionFlags | src/document_processor.py:81-85 | the flags a section list stands for hold one heading per section |
| DocumentProcessor.KeptTextsSnoc | src/document_processor.py:72-75 | one more paragraph adds its stripped text when it is not blank, and nothing otherwise |
| DocumentProcessor.HeadingFlagsSnoc | src/document_processor.py:77-80 | one more non-blank paragraph adds its heading test result as a flag |
| DocumentProcessor.StepHeading | src/document_processor.py:78-85 | a heading paragraph opens a new section with empty content, and the grouping still stands for the texts and flags seen so far |
| DocumentProcessor.StepContent | src/document_processor.py:86-87 | after a heading, a non-heading paragraph joins the content of the latest section, keeping the same correspondence |
| DocumentProcessor.StepLoose | src/document_processor.py:88-89 | before any heading, a non-heading paragraph goes to the top-level paragraphs, keeping the same correspondence |
| DocumentProcessor.StepRepresents | src/document_processor.py:72-89 | one loop step keeps the invariant that the grouping holds every kept text once, in order, with exactly the headings as section titles |
| DocumentProcessor.GroupRepresents | src/document_processor.py:71-89 | after the whole loop, every non-blank paragraph lands in exactly one place: a section title, the content of the latest section, or the top-level paragraphs if no heading came before |
| DocumentProcessor.GroupCounts | src/document_processor.py:77-85 | the number of sections equals the number of heading paragraphs |
| DocumentProcessor.ExtractStructure | src/document_processor.py:59-89 | the title is the stripped first paragraph, or "" with no paragraphs; the sections and loose paragraphs hold the kept texts in order; there is one section per heading paragraph |
| ChecklistVerifier.CatalogueKeys | src/checklist_verifier.py:41-197 | the catalogue has exactly the four processes |
| ChecklistVerifier.MandatoryNames | src/checklist_verifier.py:334 | a name is listed exactly when some mandatory requirement carries it |
| ChecklistVerifier.MandatoryFrom | src/checklist_verifier.py:334 | the same for the requirements from index `i` on |
| ChecklistVerifier.IncorporationMandatory | src/checklist_verifier.py:42-99 | the seven mandatory documents of Company Incorporation, in catalogue order |
| ChecklistVerifier.IncorporationMandatoryDistinct | src/checklist_verifier.py:42-99 | no mandatory name of Company Incorporation repeats |
| ChecklistVerifier.LicensingMandatory | src/checklist_verifier.py:100-136 | the five mandatory documents of Business Licensing, in catalogue order |
| ChecklistVerifier.EmploymentMandatory | src/checklist_verifier.py:137-166 | the three mandatory documents of Employment Contracts, in catalogue order |
| ChecklistVerifier.CommercialMandatory | src/checklist_verifier.py:167-196 | the three mandatory documents of Commercial Agreements, in catalogue order |
| ChecklistVerifier.CatalogueMandatoryDistinct | src/checklist_verifier.py:41-197 | every process has at least one mandatory document, and no mandatory name repeats |
| ChecklistVerifier.DropExtension | src/checklist_verifier.py:278-286 | removing an extension leaves a prefix of the name |
| ChecklistVerifier.DropExtensionNoDot | src/checklist_verifier.py:283-286 | a name without a dot keeps its full text |
| ChecklistVerifier.NormalizedShape | src/checklist_verifier.py:272-294 | a normalised name has no surrounding whitespace, no `_`, `-` or `.`, and no upper-case letter |
| ChecklistVerifier.NormalizeIdempotent | src/checklist_verifier.py:272-294 | normalising a normalised name changes nothing |
| ChecklistVerifier.NormalizeExample | src/checklist_verifier.py:272-294 | the upload "Board_Resolution.DOCX" and the requirement "Board Resolution" both normalise to "board resolution", so the name test matches them |
| ChecklistVerifier.LowerAll | src/checklist_verifier.py:223-224 | one lowered keyword per keyword, in order |
| ChecklistVerifier.KeywordSearch | src/checklist_verifier.py:223-225 | the keyword loop succeeds exactly when some lowered keyword is a substring of the lowered text |
| ChecklistVerifier.MatchDocumentTypeIff | src/checklist_verifier.py:220-239 | a match holds exactly when some keyword occurs in the text, or the normalised file name equals the normalised requirement name, or some keyword occurs in the lowered raw file name |
| ChecklistVerifier.FindMatchingDocumentSpec | src/checklist_verifier.py:296-305 | returns the first required name whose normalised form equals the uploaded name's, and None exactly when there is no such name |
| ChecklistVerifier.AnchorOf | src/checklist_verifier.py:255-262 | the process whose pair of document types holds `t`, or none exactly when no pair does |
| ChecklistVerifier.ProcessScoresCount | src/checklist_verifier.py:253-267 | each process scores 3 per anchor document plus 1 per Board Resolution |
| ChecklistVerifier.FirstMax | src/checklist_verifier.py:270 | the index of a highest score with every earlier score strictly lower, so ties go to the first declared process |
| ChecklistVerifier.FirstMaxUnique | src/checklist_verifier.py:270 | that index is the only one that is highest and beats every earlier score |
| ChecklistVerifier.DocumentTypes | src/checklist_verifier.py:243 | one document type per upload, in upload order |
| ChecklistVerifier.ProcessFor | src/checklist_verifier.py:241-270 | the identified process is always one of the four declared processes and has a checklist |
| ChecklistVerifier.IdentifyProcessType | src/checklist_verifier.py:241-270 | returns the declared process with the highest score, the earliest on ties |
| ChecklistVerifier.ScoreDocument | src/checklist_verifier.py:254-267 | one pass of the scoring loop for a single document type |
| ChecklistVerifier.HighestScore | src/checklist_verifier.py:270 | `max(..., key=...)` picks the first highest of the four scores |
| ChecklistVerifier.AllZeroIsIncorporation | src/checklist_verifier.py:246-270 | when no type scores, the answer is Company Incorporation |
| ChecklistVerifier.BoardResolutionAddsOne | src/checklist_verifier.py:265-267 | one more Board Resolution adds exactly one to every process's score |
| ChecklistVerifier.BoardResolutionNeutral | src/checklist_verifier.py:265-270 | inserting a Board Resolution anywhere never changes the identified process |
| ChecklistVerifier.BusinessLicensingNeverPicked | src/checklist_verifier.py:257-258 | on types produced by `identify_document_type`, Business Licensing is never identified, because neither of its anchor types is a label the classifier produces |
| ChecklistVerifier.UnknownProcessUnreachable | src/checklist_verifier.py:322-330 | the identified process is always in the catalogue, so the "Unknown Process" branch cannot be reached |
| ChecklistVerifier.ExtractDocxText | src/checklist_verifier.py:199-205 | the extracted text when extraction succeeds, "" when it fails |
| ChecklistVerifier.FirstContentMatchSpec | src/checklist_verifier.py:351-355 | the inner loop adds the first mandatory, not yet found requirement that matches, and adds nothing exactly when none matches |
| ChecklistVerifier.FallbackIsDead | src/checklist_verifier.py:358-361 | whenever `_find_matching_document` would find a name, the guarding `any(...)` is already true, so the filename fallback never adds a name |
| ChecklistVerifier.UploadStepAddsAtMostOne | src/checklist_verifier.py:340-361 | one upload only adds names, only mandatory ones, and at most one; an upload without a file name or path adds nothing |
| ChecklistVerifier.FoundAfterBounds | src/checklist_verifier.py:337-361 | the found set holds only mandatory names of the process and has no more names than there are uploads |
| ChecklistVerifier.FoundAfterGrows | src/checklist_verifier.py:340-361 | the found set only grows from upload to upload |
| ChecklistVerifier.CheckUpload | src/checklist_verifier.py:340-361 | one pass of the outer loop: the content match with its `break`, then the guarded fallback |
| ChecklistVerifier.MissingNames | src/checklist_verifier.py:364 | no more names are missing than are mandatory |
| ChecklistVerifier.MissingNamesIff | src/checklist_verifier.py:364 | a name is missing exactly when it is mandatory and not found; none is missing exactly when every mandatory name is found |
| ChecklistVerifier.MissingNamesOrder | src/checklist_verifier.py:364 | the missing names keep the order of the mandatory list: each is the mandatory name at an increasing position, and not found |
| ChecklistVerifier.CompletenessRange | src/checklist_verifier.py:367-369 | the percentage lies in [0, 100] and is 100 exactly when every mandatory document is counted |
| ChecklistVerifier.FoundAllIff | src/checklist_verifier.py:364-369 | with distinct mandatory names, the found count is at most the mandatory count, and is equal to it exactly when every name is found |
| ChecklistVerifier.CompletenessFacts | src/checklist_verifier.py:364-377 | the completeness lies in [0, 100] and is 100 exactly when nothing is missing |
| ChecklistVerifier.ChecklistOutcomeFacts | src/checklist_verifier.py:364-377 | completeness in [0, 100]; at least one required document; complete exactly when nothing is missing, exactly when completeness is 100; missing names are the mandatory names not found |
| ChecklistVerifier.VerifyChecklist | src/checklist_verifier.py:307-378 | no uploads gives ("Unknown", 0, 0, [], 0.0, false); otherwise the process identified from the uploads, the number of uploads, the mandatory count, the missing names and the completeness |
| ChecklistVerifier.ProcessDescriptionCases | src/checklist_verifier.py:380-388 | a catalogued process gets a description starting "You are "; any other process type gets "Unknown legal process" |
| ChecklistVerifier.DescriptionInitial | src/checklist_verifier.py:380-388 | no description is empty or starts like "Excellent! " |
| ChecklistVerifier.UserMessageOpening | src/checklist_verifier.py:390-398 | the message starts "Excellent! " exactly when the result is complete; an incomplete one starts with the description and ends with a full stop |
| ChecklistVerifier.UserMessageNamesMissing | src/checklist_verifier.py:396-398 | an incomplete message names every missing document in single quotes, together with the uploaded and required counts |
| ChecklistVerifier.MessageForMissing | src/checklist_verifier.py:390-398 | for a result whose missing list is the mandatory names not found, the message starts "Excellent! " exactly when all are found, and quotes every one that is not |
| ChecklistVerifier.OutcomeMessage | src/checklist_verifier.py:364-398 | for any non-empty upload list, the message congratulates exactly when every mandatory document was found, and quotes each one that was not |
| ChecklistVerifier.CollectReferences | src/checklist_verifier.py:405-410 | collects exactly the distinct non-empty references of the requirements |
| ChecklistVerifier.AdgmReferences | src/checklist_verifier.py:400-410 | no reference for an uncatalogued process; otherwise exactly the distinct non-empty references of its requirements |
| RagEngine.CategoryNames | src/rag_engine.py:123 | one name per knowledge-base category, in table order |
| RagEngine.KnowledgeBaseDistinct | src/rag_engine.py:31-104 | the table's category names are distinct, as the keys of a dictionary are |
| RagEngine.LookupDistinct | src/rag_engine.py:125-127 | in a table with distinct names, looking up a category's name gives that category's references |
| RagEngine.LookupSpec | src/rag_engine.py:125-127 | a category is found exactly when it is a key, and then it yields that category's references |
| RagEngine.RelevanceFacts | src/rag_engine.py:139-155 | the score is one of the eight sums of 10, 5 and 2; a reference matches the query exactly when it scores at least 2; a title hit is exactly a score of at least 10 |
| RagEngine.MatchingIn | src/rag_engine.py:127-132 | only references of the category that match the query are collected |
| RagEngine.MatchingInSpec | src/rag_engine.py:127-132 | a reference is collected exactly when it belongs to the category and matches the query |
| RagEngine.WithRelevance | src/rag_engine.py:135 | the references of one score, drawn from the list |
| RagEngine.TopFive | src/rag_engine.py:137 | `results[:5]` has at most five entries |
| RagEngine.BucketedSorted | src/rag_engine.py:135 | concatenating the score groups from highest to lowest gives a list in non-increasing relevance |
| RagEngine.BucketedPermutes | src/rag_engine.py:135 | the score groups together hold the same references as the list, counted with multiplicity |
| RagEngine.BucketedStable | src/rag_engine.py:135 | within each score the grouped list keeps the original order |
| RagEngine.SortByRelevanceSpec | src/rag_engine.py:135 | the stable descending sort is ordered by relevance, is a permutation, and keeps the original order among equal scores |
| RagEngine.CandidatesSpec | src/rag_engine.py:123-132 | a reference is collected exactly when it matches the query and belongs to a searched category |
| RagEngine.SearchLegalKnowledge | src/rag_engine.py:117-137 | collects the matching references of the searched categories, sorts them by relevance and keeps the first five |
| RagEngine.AppendMatching | src/rag_engine.py:127-132 | the inner loop appends exactly the matching references of one category, in order |
| RagEngine.SearchResultsSorted | src/rag_engine.py:135-137 | at most five results, in non-increasing relevance |
| RagEngine.SearchResultsMatch | src/rag_engine.py:119-137 | every result contains the lowered query in its title, content or article, scores at least 2, and comes from a searched category |
| RagEngine.SearchUnknownCategory | src/rag_engine.py:123-126 | a given category that is not in the table yields no result |
| RagEngine.SearchResultsComplete | src/rag_engine.py:135-137 | a matching reference of a searched category is left out only when five results are kept, each scoring at least as much as it |
| RagEngine.TopFiveKeepsBest | src/rag_engine.py:137 | cutting a sorted list to five drops an entry only when five remain, each scoring at least as much as it |
| RagEngine.SearchKeepsTableOrder | src/rag_engine.py:125-137 | the results of each score appear in knowledge-base order |
| RagEngine.JurisdictionGuidance | src/rag_engine.py:157-162 | guidance for an issue type that mentions jurisdiction comes only from the jurisdiction category, and has at most five references |
| RagEngine.GuidanceSources | src/rag_engine.py:157-168 | every reference of the guidance matches the query made of the document type and the issue type, and comes from the category the issue type picks, testing jurisdiction, then formation, then compliance; an issue type that names none of them draws on any category of the table |
| RagEngine.GuidanceAtMostFive | src/rag_engine.py:157-168 | the guidance never holds more than five references, whatever the issue type |
| RagEngine.FirstReferenceSpec | src/rag_engine.py:170-177 | the lookup returns the first reference in table order whose article equals the given one ignoring case and whose source contains the regulation ignoring case, and None exactly when there is none |
| RagEngine.CitationParts | src/rag_engine.py:179-181 | the citation is the source, ", " and the article, so both can be read back from it |
| RagEngine.LinkUrls | src/rag_engine.py:197 | at most one URL per link name, and each URL is an official ADGM link |
| RagEngine.LinkUrlsAllKnown | src/rag_engine.py:197 | when every name is a known link, there is one URL per name |
| RagEngine.LinksForCategoryFacts | src/rag_engine.py:187-197 | an unknown category gets no link; a known one gets one URL per listed name, at least two, all official |
| RagEngine.IssueCategoryCases | src/rag_engine.py:233-244 | the category follows the lowered type by priority (jurisdiction; formation or clause; compliance; otherwise commercial), and each category has at least two links |
| RagEngine.CiteAll | src/rag_engine.py:214-223 | one cited entry per guidance reference |
| RagEngine.EnhancedOnlyAdds | src/rag_engine.py:203-228 | enrichment keeps every other key and its value; without guidance the issue is unchanged; with guidance exactly the keys 'legal_references' (one entry per reference) and 'adgm_links' (at least two) are added |
| RagEngine.EnhanceComplianceAnalysis | src/rag_engine.py:199-231 | one enhanced issue per input issue, in the same order |
| RagEngine.EnhanceIssue | src/rag_engine.py:204-229 | one pass of the loop: copy the issue, then add references and links when there is guidance |
| CommentGenerator.CommentLinesContent | src/comment_generator.py:117-137 | the lines are the issue, severity and description lines and blanks, plus the section, reference and suggestion lines exactly when those fields are non-empty |
| CommentGenerator.CommentLabelsOwnLines | src/comment_generator.py:117-137 | every line that starts with a label is that label's own field line |
| CommentGenerator.CommentTextSplits | src/comment_generator.py:139 | splitting the comment on line breaks gives back its line list, when no field contains a line break |
| CommentGenerator.CommentLinesFixedFields | src/comment_generator.py:120-125 | the ISSUE, SEVERITY and DESCRIPTION labels read back their fields |
| CommentGenerator.CommentLinesOptionalFields | src/comment_generator.py:129-137 | the SECTION, ADGM REFERENCE and SUGGESTION labels read back their fields when non-empty, and are absent otherwise |
| CommentGenerator.CommentTextRoundTrip | src/comment_generator.py:112-139 | every field can be read back from the comment text by its label, and an empty optional field leaves no line |
| CommentGenerator.FormatComment | src/comment_generator.py:112-139 | appends the lines one by one and joins them with line breaks |
| CommentGenerator.IssueCommentDefaults | src/comment_generator.py:88-98 | the comment for an issue dictionary reads back its fields; a missing severity reads "Medium", a missing type reads "", and a missing section, reference or suggestion leaves its line out |
| CommentGenerator.CheckerIssueComment | src/comment_generator.py:88-98 | the comment for a checker issue's dictionary reads back every field of that issue |
| CommentGenerator.ExtractKeywordsFromIssue | src/comment_generator.py:173-190 | extends the keyword list one fixed triple per trigger word in the description |
| CommentGenerator.KeywordTriplesShape | src/comment_generator.py:181-188 | the list has 0, 3, 6, 9 or 12 entries, all drawn from the four triples |
| CommentGenerator.KeywordsSpec | src/comment_generator.py:177-190 | the list has 0, 3, 6, 9 or 12 entries; it holds "jurisdiction", "clause", "director" and "shareholder" each exactly when the lowered description contains that word; every entry comes from one of the four triples |
| CommentGenerator.FirstMeetingSpec | src/comment_generator.py:150-169 | each paragraph scan returns the first paragraph meeting its test, and nothing exactly when no paragraph does |
| CommentGenerator.TargetParagraphPriority | src/comment_generator.py:145-171 | the first paragraph containing the section, if any; else the first containing the clause; else the first containing a keyword; else the first non-blank one |
| CommentGenerator.TargetParagraphFound | src/comment_generator.py:166-171 | a paragraph is chosen whenever some paragraph has non-whitespace text, and none only when all are blank |
| CommentGenerator.FormatSummaryComment | src/comment_generator.py:236-277 | appends the summary lines one by one and joins them with line breaks |
| CommentGenerator.SummaryHeadParts | src/comment_generator.py:240-260 | the heading, status, score and total lines, with the defaults for missing keys |
| CommentGenerator.AppendSeverityLine | src/comment_generator.py:267-272 | a severity line is appended only for a positive count |
| CommentGenerator.SummaryLinesContent | src/comment_generator.py:240-275 | the lines are the fixed ones, the COMPLIANT or NON-COMPLIANT status as `is_compliant` says, score and total, and a severity line exactly for each positive count |
| CommentGenerator.SummaryLabelsOwnLines | src/comment_generator.py:244-275 | every line that starts with a label is that label's own line, and a status line agrees with `is_compliant` |
| CommentGenerator.SummaryLinesFields | src/comment_generator.py:240-275 | the status line is COMPLIANT exactly when `is_compliant`; score and total read back; each severity line reads back its count when positive and is absent otherwise |
| CommentGenerator.SummaryTextSplits | src/comment_generator.py:277 | splitting the summary on line breaks gives back its line list |
| CommentGenerator.SummaryTextFields | src/comment_generator.py:240-277 | the same facts, read from the joined summary text |
| CommentGenerator.SummaryDefaults | src/comment_generator.py:240-265 | an empty result reads NON-COMPLIANT, score "0%", total "0", and no severity line |

## Left out

- Reading `.docx` files. This covers `extract_text`, the file reading and the `tables` entry of `extract_structure`, and `process_document` (src/document_processor.py:28-58, 91-159). `ExtractStructure` takes the paragraphs as (text, style name) pairs. `verify_checklist` takes the extraction results as a map from path to text.
- Writing into documents: `add_comment_to_paragraph`, `_add_inline_annotation`, `add_comments_to_document`, `add_highlight_to_text` and `generate_summary_comment`, together with logging and the `date.today()` stamp. The model covers only the texts they write and the choice of paragraph.
- The user interface and orchestration in app.py, the sample-document generator and the test scripts.
- `get_related_regulations` and `get_knowledge_base_summary` (src/rag_engine.py:183-185, 246-257). The first is the category lookup `RagEngine.Lookup` with an empty-list default. The second only reports table sizes.
- The `adgm_regulations` table (src/adgm_checker.py:69-81) is kept as a constant. No check reads it.
- Python's `re` engine. The patterns are modelled by `PhrasePatterns` for their one shape (words, `\s+`, optional trailing `s`, case-insensitive), where a greedy scan is exact. The model does not handle regular expressions in general.
- Text is ASCII. `lower`, `isupper`, `isspace` and `IGNORECASE` follow their ASCII behaviour, with no Unicode case mapping.
- ComplianceChecker.CheckCompliance: the score is the unrounded real. `round(x, 2)` is not modelled. The `is_compliant` test uses the unrounded value, as the source does.
- ChecklistVerifier.VerifyChecklist: the completeness is the unrounded real. `round(x, 2)` is not modelled.
- ChecklistVerifier.AdgmReferences: the result is a set. The source returns `list(set(...))`, whose order Python leaves unspecified.
- RagEngine.SearchLegalKnowledge: Python's stable `sort(reverse=True)` is modelled as grouping by score, highest first. `SortByRelevanceSpec` proves that this grouping is sorted, a permutation and stable. The scores are the integers 0 to 17, not floats. The sums of 10.0, 5.0 and 2.0 are exact in floating point, so nothing is lost.
- RagEngine.SearchLegalKnowledge: the knowledge base is a parameter. `RagEngine.AdgmKnowledgeBase` is the table the source builds.
- CommentGenerator.FormatSummaryComment: the compliance score is taken as the text Python prints for it. Float formatting is not modelled.
- IssueDicts.Get: a key holding something other than text reads as absent, so the model falls back to the default. The source does not. Where it calls `.lower()` on such a value it raises `AttributeError`: in `_extract_keywords_from_issue` and `_find_target_paragraph` (src/comment_generator.py:151-157, 181-187), and in `get_compliance_guidance` and `_determine_issue_category` (src/rag_engine.py:161-165, 235). Where it formats the value into an f-string, as `_format_comment_text` does, it prints `str()` of it. Neither the exception nor the `str()` text is modelled.
- DocumentProcessor.SplitExtension: `os.path.splitext` is modelled as on POSIX, where `/` is the only path separator. On Windows, `\` and the drive colon `:` also separate, so a path such as `C:.docx` or `dir\.docx` can be judged differently there.
