/** The document checklist verifier: which legal process a set of uploaded
    documents belongs to, which of that process's mandatory documents are
    present, and the message shown to the user about it. */
module ChecklistVerifier {
  import opened AsciiText
  import DocumentProcessor

  /** A document a legal process asks for, with the keywords that identify
      it from its content. */
  datatype DocumentRequirement = DocumentRequirement(
    documentName: string,
    isMandatory: bool,
    description: string,
    adgmReference: string,
    contentKeywords: seq<string>)

  datatype ChecklistResult = ChecklistResult(
    processType: string,
    documentsUploaded: nat,
    requiredDocuments: nat,
    missingDocuments: seq<string>,
    completenessPercentage: real,
    isComplete: bool)

  /** One uploaded document as the application records it. A key the
      record lacks reads as the empty string, as `dict.get(key, '')` does. */
  datatype UploadedDocument = UploadedDocument(fileName: string, filePath: string, documentType: string)

  // ---------------------------------------------------------------------
  // The catalogue of processes and their documents
  // ---------------------------------------------------------------------

  /** The processes, in the order the catalogue and the score table list them. */
  const ProcessNames: seq<string> :=
    ["Company Incorporation", "Business Licensing", "Employment Contracts", "Commercial Agreements"]

  const BoardResolutionKeywords: seq<string> :=
    ["board resolution", "board meeting", "directors resolution", "board decision", "directors decision"]

  const CompanyIncorporationDocuments: seq<DocumentRequirement> := [
    DocumentRequirement("Articles of Association", true,
      "Constitutional document defining company structure",
      "ADGM Companies Regulations 2020, Art. 6",
      ["articles of association", "company articles", "aoa", "articles", "constitutional document", "company structure"]),
    DocumentRequirement("Memorandum of Association", true,
      "Document establishing company and its objects",
      "ADGM Companies Regulations 2020, Art. 6",
      ["memorandum of association", "company memorandum", "memorandum", "company objects", "company establishment"]),
    DocumentRequirement("Board Resolution", true,
      "Resolution authorizing incorporation",
      "ADGM Companies Regulations 2020, Art. 22",
      BoardResolutionKeywords),
    DocumentRequirement("Shareholder Resolution", true,
      "Resolution approving incorporation",
      "ADGM Companies Regulations 2020, Art. 15",
      ["shareholder resolution", "shareholders resolution", "member resolution", "shareholder decision", "member decision"]),
    DocumentRequirement("Incorporation Application Form", true,
      "Official application for company registration",
      "ADGM Companies Regulations 2020, Art. 6",
      ["incorporation application", "company registration", "incorporation form", "registration application", "company formation"]),
    DocumentRequirement("UBO Declaration Form", true,
      "Ultimate Beneficial Owner declaration",
      "ADGM Companies Regulations 2020, Art. 45",
      ["ubo declaration", "ultimate beneficial owner", "beneficial owner", "ubo form", "ownership declaration"]),
    DocumentRequirement("Register of Members and Directors", true,
      "Register of company members and directors",
      "ADGM Companies Regulations 2020, Art. 22",
      ["register of members", "register of directors", "members register", "directors register", "company register"]),
    DocumentRequirement("Change of Registered Address Notice", false,
      "Notice of registered office address",
      "ADGM Companies Regulations 2020, Art. 8",
      ["change of address", "registered address", "office address", "address change", "registered office"])
  ]

  const BusinessLicensingDocuments: seq<DocumentRequirement> := [
    DocumentRequirement("License Application Form", true,
      "Application for business license",
      "ADGM Commercial Regulations, Art. 3",
      ["license application", "business license", "licensing application", "permit application", "business permit"]),
    DocumentRequirement("Business Plan", true,
      "Detailed business plan and projections",
      "ADGM Commercial Regulations, Art. 3",
      ["business plan", "business strategy", "business proposal", "business model", "business projections"]),
    DocumentRequirement("Financial Statements", true,
      "Audited financial statements",
      "ADGM Commercial Regulations, Art. 8",
      ["financial statements", "financial report", "audited accounts", "financial accounts", "balance sheet"]),
    DocumentRequirement("Compliance Policy", true,
      "Compliance and risk management policy",
      "ADGM Commercial Regulations, Art. 12",
      ["compliance policy", "risk management", "compliance procedures", "risk policy", "compliance framework"]),
    DocumentRequirement("Board Resolution", true,
      "Resolution approving license application",
      "ADGM Commercial Regulations, Art. 3",
      BoardResolutionKeywords)
  ]

  const EmploymentContractsDocuments: seq<DocumentRequirement> := [
    DocumentRequirement("Employment Contract", true,
      "Standard employment agreement",
      "ADGM Employment Regulations",
      ["employment contract", "employment agreement", "work contract", "employment terms", "work agreement"]),
    DocumentRequirement("Job Description", true,
      "Detailed job role and responsibilities",
      "ADGM Employment Regulations",
      ["job description", "role description", "position description", "job responsibilities", "role requirements"]),
    DocumentRequirement("Company Policies", false,
      "Relevant company policies and procedures",
      "ADGM Employment Regulations",
      ["company policies", "company procedures", "workplace policies", "employment policies", "company rules"]),
    DocumentRequirement("Board Resolution", true,
      "Resolution approving employment terms",
      "ADGM Employment Regulations",
      BoardResolutionKeywords)
  ]

  const CommercialAgreementsDocuments: seq<DocumentRequirement> := [
    DocumentRequirement("Commercial Agreement", true,
      "Main commercial contract",
      "ADGM Commercial Regulations",
      ["commercial agreement", "commercial contract", "business agreement", "commercial terms", "business contract"]),
    DocumentRequirement("Due Diligence Report", true,
      "Due diligence findings",
      "ADGM Commercial Regulations",
      ["due diligence", "due diligence report", "diligence findings", "investigation report", "background check"]),
    DocumentRequirement("Board Resolution", true,
      "Resolution approving agreement",
      "ADGM Commercial Regulations",
      BoardResolutionKeywords),
    DocumentRequirement("Legal Opinion", false,
      "Legal opinion on agreement terms",
      "ADGM Commercial Regulations",
      ["legal opinion", "legal advice", "legal assessment", "legal review", "legal counsel"])
  ]

  const ProcessChecklists: map<string, seq<DocumentRequirement>> := map[
    "Company Incorporation" := CompanyIncorporationDocuments,
    "Business Licensing" := BusinessLicensingDocuments,
    "Employment Contracts" := EmploymentContractsDocuments,
    "Commercial Agreements" := CommercialAgreementsDocuments]

  /** The catalogue holds exactly the processes of the score table. */
  lemma CatalogueKeys()
    ensures forall p :: p in ProcessChecklists <==> p in ProcessNames
  {
  }

  /** `[doc.document_name for doc in docs if doc.is_mandatory]` */
  function MandatoryNames(docs: seq<DocumentRequirement>): (names: seq<string>)
    ensures |names| <= |docs|
    ensures forall d :: d in names <==> exists k :: 0 <= k < |docs| && docs[k].isMandatory && docs[k].documentName == d
  {
    MandatoryFrom(docs, 0)
  }

  /** The mandatory names of `docs[i..]`. */
  function MandatoryFrom(docs: seq<DocumentRequirement>, i: nat): (names: seq<string>)
    requires i <= |docs|
    ensures |names| <= |docs| - i
    ensures forall d :: d in names <==> exists k :: i <= k < |docs| && docs[k].isMandatory && docs[k].documentName == d
    decreases |docs| - i
  {
    if i == |docs| then []
    else (if docs[i].isMandatory then [docs[i].documentName] else []) + MandatoryFrom(docs, i + 1)
  }

  predicate Distinct(s: seq<string>) {
    forall i, j :: 0 <= i < j < |s| ==> s[i] != s[j]
  }

  /** The mandatory documents of each process, in catalogue order. */
  lemma IncorporationMandatory()
    ensures MandatoryNames(CompanyIncorporationDocuments) ==
      ["Articles of Association", "Memorandum of Association", "Board Resolution",
       "Shareholder Resolution", "Incorporation Application Form", "UBO Declaration Form",
       "Register of Members and Directors"]
  {
    var ci := CompanyIncorporationDocuments;
    IncorporationMandatoryTail();
    assert MandatoryFrom(ci, 3) == ["Shareholder Resolution"] + MandatoryFrom(ci, 4);
    assert MandatoryFrom(ci, 2) == ["Board Resolution"] + MandatoryFrom(ci, 3);
    assert MandatoryFrom(ci, 1) == ["Memorandum of Association"] + MandatoryFrom(ci, 2);
    assert MandatoryFrom(ci, 0) == ["Articles of Association"] + MandatoryFrom(ci, 1);
  }

  lemma IncorporationMandatoryDistinct()
    ensures Distinct(MandatoryNames(CompanyIncorporationDocuments))
  {
    IncorporationMandatory();
  }

  lemma IncorporationMandatoryTail()
    ensures MandatoryFrom(CompanyIncorporationDocuments, 4) ==
      ["Incorporation Application Form", "UBO Declaration Form", "Register of Members and Directors"]
  {
    var ci := CompanyIncorporationDocuments;
    assert MandatoryFrom(ci, 7) == [];
    assert MandatoryFrom(ci, 6) == ["Register of Members and Directors"];
    assert MandatoryFrom(ci, 5) == ["UBO Declaration Form"] + MandatoryFrom(ci, 6);
    assert MandatoryFrom(ci, 4) == ["Incorporation Application Form"] + MandatoryFrom(ci, 5);
  }

  lemma LicensingMandatory()
    ensures MandatoryNames(BusinessLicensingDocuments) ==
      ["License Application Form", "Business Plan", "Financial Statements", "Compliance Policy", "Board Resolution"]
  {
    var bl := BusinessLicensingDocuments;
    assert MandatoryFrom(bl, 5) == [];
    assert MandatoryFrom(bl, 4) == ["Board Resolution"];
    assert MandatoryFrom(bl, 3) == ["Compliance Policy"] + MandatoryFrom(bl, 4);
    assert MandatoryFrom(bl, 2) == ["Financial Statements"] + MandatoryFrom(bl, 3);
    assert MandatoryFrom(bl, 1) == ["Business Plan"] + MandatoryFrom(bl, 2);
    assert MandatoryFrom(bl, 0) == ["License Application Form"] + MandatoryFrom(bl, 1);
  }

  lemma EmploymentMandatory()
    ensures MandatoryNames(EmploymentContractsDocuments) == ["Employment Contract", "Job Description", "Board Resolution"]
  {
    var ec := EmploymentContractsDocuments;
    assert MandatoryFrom(ec, 4) == [];
    assert MandatoryFrom(ec, 3) == ["Board Resolution"];
    assert MandatoryFrom(ec, 2) == MandatoryFrom(ec, 3);
    assert MandatoryFrom(ec, 1) == ["Job Description"] + MandatoryFrom(ec, 2);
    assert MandatoryFrom(ec, 0) == ["Employment Contract"] + MandatoryFrom(ec, 1);
  }

  lemma CommercialMandatory()
    ensures MandatoryNames(CommercialAgreementsDocuments) == ["Commercial Agreement", "Due Diligence Report", "Board Resolution"]
  {
    var ca := CommercialAgreementsDocuments;
    assert MandatoryFrom(ca, 4) == [];
    assert MandatoryFrom(ca, 3) == [];
    assert MandatoryFrom(ca, 2) == ["Board Resolution"];
    assert MandatoryFrom(ca, 1) == ["Due Diligence Report"] + MandatoryFrom(ca, 2);
    assert MandatoryFrom(ca, 0) == ["Commercial Agreement"] + MandatoryFrom(ca, 1);
  }

  /** Every process asks for at least one mandatory document and lists no
      mandatory name twice. */
  lemma CatalogueMandatoryDistinct(p: string)
    requires p in ProcessChecklists
    ensures |MandatoryNames(ProcessChecklists[p])| > 0
    ensures Distinct(MandatoryNames(ProcessChecklists[p]))
  {
    if p == "Company Incorporation" {
      IncorporationMandatoryDistinct();
    } else if p == "Business Licensing" {
      LicensingMandatory();
    } else if p == "Employment Contracts" {
      EmploymentMandatory();
    } else {
      CommercialMandatory();
    }
  }

  // ---------------------------------------------------------------------
  // Filename normalisation and document matching
  // ---------------------------------------------------------------------

  const CommonExtensions: seq<string> := [".docx", ".doc", ".pdf", ".txt", ".rtf", ".odt"]

  /** `name` without the first of `exts` that its lower-case form ends with. */
  function DropExtension(name: string, exts: seq<string>): (stem: string)
    ensures |stem| <= |name| && stem == name[..|stem|]
  {
    if exts == [] then name
    else if EndsWith(Lower(name), exts[0]) then name[..|name| - |exts[0]|]
    else DropExtension(name, exts[1..])
  }

  /** The characters a file name may use between words. */
  predicate IsSeparator(c: char) {
    c == '_' || c == '-' || c == '.'
  }

  /** `_normalize_filename`: trimmed, a common extension dropped, `_`, `-`
      and `.` read as spaces, lower case, whitespace runs collapsed. */
  function NormalizeFilename(filename: string): string {
    var stem := DropExtension(Strip(filename), CommonExtensions);
    var spaced := ReplaceChar(ReplaceChar(ReplaceChar(stem, '_', ' '), '-', ' '), '.', ' ');
    CollapseSpaces(Lower(spaced))
  }

  /** A normalised name is trimmed and holds no separator and no upper-case
      letter. */
  lemma NormalizedShape(filename: string)
    ensures var n := NormalizeFilename(filename);
      (n == [] || (!IsSpace(n[0]) && !IsSpace(n[|n| - 1]))) &&
      forall i :: 0 <= i < |n| ==> !IsSeparator(n[i]) && !IsUpperChar(n[i])
  {
    var stem := DropExtension(Strip(filename), CommonExtensions);
    var spaced := ReplaceChar(ReplaceChar(ReplaceChar(stem, '_', ' '), '-', ' '), '.', ' ');
    var lowered := Lower(spaced);
    NormalizedChars(lowered, spaced);
    JoinOfWordsTrimmed(Words(lowered));
  }

  /** Whatever is not a space in the collapse of `lowered` is a lower-cased
      character of `spaced`, which holds no `_`, `-` or `.`. */
  lemma NormalizedChars(lowered: string, spaced: string)
    requires lowered == Lower(spaced)
    requires forall i :: 0 <= i < |spaced| ==> !IsSeparator(spaced[i])
    ensures var n := CollapseSpaces(lowered);
      forall i :: 0 <= i < |n| ==> !IsSeparator(n[i]) && !IsUpperChar(n[i])
  {
    var n := CollapseSpaces(lowered);
    forall i | 0 <= i < |n|
      ensures !IsSeparator(n[i]) && !IsUpperChar(n[i])
    {
      if n[i] != ' ' {
        var m := CollapseCharsFrom(lowered, i);
        assert lowered[m] == LowerChar(spaced[m]);
      }
    }
  }

  /** A name with no dot keeps every extension-less form. */
  lemma {:induction false} DropExtensionNoDot(name: string, exts: seq<string>)
    requires '.' !in Lower(name)
    requires forall k :: 0 <= k < |exts| ==> |exts[k]| > 0 && exts[k][0] == '.'
    ensures DropExtension(name, exts) == name
  {
    if exts != [] {
      DropExtensionNoDot(name, exts[1..]);
    }
  }

  /** Normalising a normalised name changes nothing. */
  lemma NormalizeIdempotent(filename: string)
    ensures NormalizeFilename(NormalizeFilename(filename)) == NormalizeFilename(filename)
  {
    var n := NormalizeFilename(filename);
    var stem := DropExtension(Strip(filename), CommonExtensions);
    var lowered := Lower(ReplaceChar(ReplaceChar(ReplaceChar(stem, '_', ' '), '-', ' '), '.', ' '));
    assert n == CollapseSpaces(lowered);
    NormalizedShape(filename);
    StripOfTrimmed(n);
    LowerOfNoUpper(n);
    DropExtensionNoDot(n, CommonExtensions);
    ReplaceAbsent(n, '_', ' ');
    ReplaceAbsent(n, '-', ' ');
    ReplaceAbsent(n, '.', ' ');
    CollapseIdempotent(lowered);
  }

  /** An upload named "Board_Resolution.DOCX" normalises to the name of the
      Board Resolution requirement. */
  lemma NormalizeExample()
    ensures NormalizeFilename("Board_Resolution.DOCX") == "board resolution"
    ensures NormalizeFilename("Board Resolution") == "board resolution"
  {
    BoardResolutionStems();
    BoardResolutionSpaced();
    BoardResolutionCollapse();
  }

  /** The first step of the example: strip, then drop a known extension. */
  lemma BoardResolutionStems()
    ensures DropExtension(Strip("Board_Resolution.DOCX"), CommonExtensions) == "Board_Resolution"
    ensures DropExtension(Strip("Board Resolution"), CommonExtensions) == "Board Resolution"
  {
    var f := "Board_Resolution.DOCX";
    StripOfTrimmed(f);
    assert Lower(f)[|f| - 5..] == ".docx";
    assert DropExtension(f, CommonExtensions) == f[..|f| - 5] == "Board_Resolution";
    var spaced := "Board Resolution";
    StripOfTrimmed(spaced);
    BoardResolutionCollapse();
    CommonExtensionsDotted();
    DropExtensionNoDot(spaced, CommonExtensions);
  }

  /** Every common extension starts with its dot. */
  lemma CommonExtensionsDotted()
    ensures forall k :: 0 <= k < |CommonExtensions| ==> |CommonExtensions[k]| > 0 && CommonExtensions[k][0] == '.'
  {
  }

  /** The middle step of the example: separators become spaces. */
  lemma BoardResolutionSpaced()
    ensures ReplaceChar(ReplaceChar(ReplaceChar("Board_Resolution", '_', ' '), '-', ' '), '.', ' ') == "Board Resolution"
    ensures ReplaceChar(ReplaceChar(ReplaceChar("Board Resolution", '_', ' '), '-', ' '), '.', ' ') == "Board Resolution"
  {
    var spaced := "Board Resolution";
    assert ReplaceChar("Board_Resolution", '_', ' ') == spaced;
    ReplaceAbsent(spaced, '_', ' ');
    ReplaceAbsent(spaced, '-', ' ');
    ReplaceAbsent(spaced, '.', ' ');
  }

  /** The last two steps of the example: lower case, then one space
      between words. */
  lemma BoardResolutionCollapse()
    ensures '.' !in Lower("Board Resolution")
    ensures CollapseSpaces(Lower("Board Resolution")) == "board resolution"
  {
    BoardResolutionLower();
    var words := ["board", "resolution"];
    assert IsWord(words[0]) && IsWord(words[1]);
    assert JoinWith(" ", words) == "board resolution";
    WordsOfJoin(words);
  }

  /** Lower case turns the requirement's name into the example's result. */
  lemma BoardResolutionLower()
    ensures Lower("Board Resolution") == "board resolution"
    ensures '.' !in "board resolution"
  {
    assert Lower("Board Resolution") == "board resolution";
  }

  /** `[k.lower() for k in keywords]` */
  function LowerAll(keywords: seq<string>): (r: seq<string>)
    ensures |r| == |keywords|
    ensures forall k :: 0 <= k < |r| ==> r[k] == Lower(keywords[k])
  {
    seq(|keywords|, k requires 0 <= k < |keywords| => Lower(keywords[k]))
  }

  /** `match_document_type`: a content keyword in the text, the file name
      normalising to the document's own name, or a keyword in the file name,
      all compared in lower case. */
  predicate MatchDocumentType(text: string, filename: string, doc: DocumentRequirement) {
    DocumentProcessor.ContainsAny(Lower(text), LowerAll(doc.contentKeywords))
    || NormalizeFilename(filename) == NormalizeFilename(doc.documentName)
    || DocumentProcessor.ContainsAny(Lower(filename), LowerAll(doc.contentKeywords))
  }

  /** Some keyword occurs in `s`, both compared in lower case. */
  predicate SomeKeywordIn(s: string, keywords: seq<string>) {
    exists k :: 0 <= k < |keywords| && Contains(Lower(s), Lower(keywords[k]))
  }

  lemma KeywordSearch(s: string, keywords: seq<string>)
    ensures DocumentProcessor.ContainsAny(Lower(s), LowerAll(keywords)) <==> SomeKeywordIn(s, keywords)
  {
    DocumentProcessor.ContainsAnyIff(Lower(s), LowerAll(keywords));
  }

  /** A document matches exactly when one of its keywords occurs in the text
      or in the file name, ignoring case, or the file name is its name. */
  lemma MatchDocumentTypeIff(text: string, filename: string, doc: DocumentRequirement)
    ensures MatchDocumentType(text, filename, doc) <==>
      SomeKeywordIn(text, doc.contentKeywords)
      || NormalizeFilename(filename) == NormalizeFilename(doc.documentName)
      || SomeKeywordIn(filename, doc.contentKeywords)
  {
    KeywordSearch(text, doc.contentKeywords);
    KeywordSearch(filename, doc.contentKeywords);
  }

  /** `_find_matching_document`: the first required name that the uploaded
      file name normalises to. */
  function FindMatchingDocument(uploaded: string, names: seq<string>): Option<string> {
    if names == [] then None
    else if NormalizeFilename(names[0]) == NormalizeFilename(uploaded) then Some(names[0])
    else FindMatchingDocument(uploaded, names[1..])
  }

  /** The name returned is the first one the uploaded file name normalises
      to, and nothing is returned only when no name does. */
  lemma {:induction false} FindMatchingDocumentSpec(uploaded: string, names: seq<string>) returns (i: nat)
    ensures var r := FindMatchingDocument(uploaded, names);
      (r.Some? ==>
        i < |names| && names[i] == r.value && NormalizeFilename(names[i]) == NormalizeFilename(uploaded) &&
        forall j :: 0 <= j < i ==> NormalizeFilename(names[j]) != NormalizeFilename(uploaded)) &&
      (r.None? <==> forall k :: 0 <= k < |names| ==> NormalizeFilename(names[k]) != NormalizeFilename(uploaded))
  {
    i := 0;
    if names != [] && NormalizeFilename(names[0]) != NormalizeFilename(uploaded) {
      var rest := names[1..];
      var i' := FindMatchingDocumentSpec(uploaded, rest);
      i := i' + 1;
      forall j | 0 < j < |names|
        ensures names[j] == rest[j - 1]
      {
      }
    }
  }

  // ---------------------------------------------------------------------
  // identify_process_type
  // ---------------------------------------------------------------------

  const BoardResolution: string := "Board Resolution"

  /** The two anchor document types of each process, in catalogue order. */
  const AnchorTypes: seq<seq<string>> := [
    ["Articles of Association", "Memorandum of Association"],
    ["License Application Form", "Business Plan"],
    ["Employment Contract", "Job Description"],
    ["Commercial Agreement", "Due Diligence Report"]]

  /** The process whose anchor list holds `t`, tried in the order of the
      `elif` chain. */
  function AnchorOf(t: string): (r: Option<nat>)
    ensures r.Some? ==> r.value < 4 && t in AnchorTypes[r.value]
    ensures r.None? <==> forall j :: 0 <= j < 4 ==> t !in AnchorTypes[j]
  {
    if t in AnchorTypes[0] then Some(0)
    else if t in AnchorTypes[1] then Some(1)
    else if t in AnchorTypes[2] then Some(2)
    else if t in AnchorTypes[3] then Some(3)
    else None
  }

  /** The score table after one more document type: 3 for the process it
      anchors, then 1 for every process when it is a board resolution. */
  function ScoreStep(scores: seq<nat>, t: string): (r: seq<nat>)
    requires |scores| == 4
    ensures |r| == 4
  {
    var anchored := match AnchorOf(t)
      case Some(j) => scores[j := scores[j] + 3]
      case None => scores;
    if t == BoardResolution then seq(4, j requires 0 <= j < 4 => anchored[j] + 1) else anchored
  }

  /** The `process_scores` table after all the document types, in process order. */
  function ProcessScores(types: seq<string>): (scores: seq<nat>)
    ensures |scores| == 4
  {
    if types == [] then [0, 0, 0, 0]
    else ScoreStep(ProcessScores(types[..|types| - 1]), types[|types| - 1])
  }

  /** How many entries of `types` equal `t`. */
  function Occurrences(types: seq<string>, t: string): nat {
    if types == [] then 0
    else Occurrences(types[..|types| - 1], t) + (if types[|types| - 1] == t then 1 else 0)
  }

  /** How many entries of `types` are anchors of process `j`. */
  function AnchorCount(types: seq<string>, j: nat): nat {
    if types == [] then 0
    else AnchorCount(types[..|types| - 1], j) + (if AnchorOf(types[|types| - 1]) == Some(j) then 1 else 0)
  }

  /** Each process scores 3 per anchor document and 1 per board resolution. */
  lemma {:induction false} ProcessScoresCount(types: seq<string>, j: nat)
    requires j < 4
    ensures ProcessScores(types)[j] == 3 * AnchorCount(types, j) + Occurrences(types, BoardResolution)
  {
    if types != [] {
      ProcessScoresCount(types[..|types| - 1], j);
    }
  }

  /** `max(scores, key=scores.get)` over the table in process order: the
      first entry holding the highest score. */
  function FirstMax(scores: seq<nat>): (k: nat)
    requires |scores| > 0
    ensures k < |scores|
    ensures forall j :: 0 <= j < |scores| ==> scores[j] <= scores[k]
    ensures forall j :: 0 <= j < k ==> scores[j] < scores[k]
  {
    if |scores| == 1 then 0
    else
      var k := FirstMax(scores[..|scores| - 1]);
      if scores[|scores| - 1] > scores[k] then |scores| - 1 else k
  }

  /** Entry `k` holds the highest score and every earlier entry is lower. */
  predicate HighestFirst(scores: seq<nat>, k: nat) {
    k < |scores| &&
    (forall j :: 0 <= j < |scores| ==> scores[j] <= scores[k]) &&
    (forall j :: 0 <= j < k ==> scores[j] < scores[k])
  }

  /** The first maximum is the only index that is highest and beats every
      earlier entry. */
  lemma FirstMaxUnique(scores: seq<nat>, k: nat)
    requires HighestFirst(scores, k)
    ensures FirstMax(scores) == k
  {
    var m := FirstMax(scores);
    assert scores[m] <= scores[k] && scores[k] <= scores[m];
  }

  function DocumentTypes(uploads: seq<UploadedDocument>): (types: seq<string>)
    ensures |types| == |uploads|
    ensures forall i :: 0 <= i < |uploads| ==> types[i] == uploads[i].documentType
  {
    seq(|uploads|, i requires 0 <= i < |uploads| => uploads[i].documentType)
  }

  /** The process `identify_process_type` picks for these document types. */
  function ProcessFor(types: seq<string>): (p: string)
    ensures p in ProcessNames && p in ProcessChecklists
  {
    ProcessNames[FirstMax(ProcessScores(types))]
  }

  /** `identify_process_type`: adds up the scores document by document, then
      picks the highest-scoring process, the earliest declared on a tie. */
  method IdentifyProcessType(uploads: seq<UploadedDocument>) returns (process: string)
    ensures process == ProcessFor(DocumentTypes(uploads))
    ensures process in ProcessChecklists
    ensures exists k :: 0 <= k < 4 && process == ProcessNames[k] && HighestFirst(ProcessScores(DocumentTypes(uploads)), k)
  {
    var types := DocumentTypes(uploads);
    var scores: seq<nat> := [0, 0, 0, 0];
    var i := 0;
    while i < |types|
      invariant 0 <= i <= |types|
      invariant scores == ProcessScores(types[..i])
    {
      assert types[..i + 1][..i] == types[..i];
      scores := ScoreDocument(scores, types[i]);
      i := i + 1;
    }
    assert types[..i] == types;
    var k := HighestScore(scores);
    process := ProcessNames[k];
  }

  /** One pass of the scoring loop: 3 to the process the type anchors, then
      1 to every process for a board resolution. */
  method ScoreDocument(scores: seq<nat>, t: string) returns (r: seq<nat>)
    requires |scores| == 4
    ensures r == ScoreStep(scores, t)
  {
    r := scores;
    match AnchorOf(t) {
      case Some(j) => r := r[j := r[j] + 3];
      case None =>
    }
    if t == BoardResolution {
      var p := 0;
      var bumped := r;
      while p < 4
        invariant 0 <= p <= 4 && |r| == 4
        invariant forall j :: 0 <= j < 4 ==> r[j] == if j < p then bumped[j] + 1 else bumped[j]
      {
        r := r[p := r[p] + 1];
        p := p + 1;
      }
    }
  }

  /** `max(process_scores, key=process_scores.get)`: the earliest entry
      holding the highest score. */
  method HighestScore(scores: seq<nat>) returns (k: nat)
    requires |scores| == 4
    ensures k == FirstMax(scores) && HighestFirst(scores, k)
  {
    k := 0;
    var best := 1;
    while best < 4
      invariant 0 <= k < best <= 4
      invariant forall j :: 0 <= j < best ==> scores[j] <= scores[k]
      invariant forall j :: 0 <= j < k ==> scores[j] < scores[k]
    {
      if scores[best] > scores[k] {
        k := best;
      }
      best := best + 1;
    }
    FirstMaxUnique(scores, k);
  }

  /** With no anchor and no board resolution, every score is 0 and the
      first declared process wins. */
  lemma AllZeroIsIncorporation(types: seq<string>)
    requires forall i :: 0 <= i < |types| ==> AnchorOf(types[i]).None? && types[i] != BoardResolution
    ensures ProcessFor(types) == "Company Incorporation"
  {
    var scores := ProcessScores(types);
    forall j | 0 <= j < 4 ensures scores[j] == 0 {
      ProcessScoresCount(types, j);
      NoAnchors(types, j);
      NoOccurrences(types, BoardResolution);
    }
    FirstMaxUnique(scores, 0);
  }

  lemma {:induction false} NoAnchors(types: seq<string>, j: nat)
    requires forall i :: 0 <= i < |types| ==> AnchorOf(types[i]) != Some(j)
    ensures AnchorCount(types, j) == 0
  {
    if types != [] {
      NoAnchors(types[..|types| - 1], j);
    }
  }

  lemma {:induction false} NoOccurrences(types: seq<string>, t: string)
    requires forall i :: 0 <= i < |types| ==> types[i] != t
    ensures Occurrences(types, t) == 0
  {
    if types != [] {
      NoOccurrences(types[..|types| - 1], t);
    }
  }

  lemma {:induction false} OccurrencesAppend(a: seq<string>, b: seq<string>, t: string)
    ensures Occurrences(a + b, t) == Occurrences(a, t) + Occurrences(b, t)
    decreases |b|
  {
    if b != [] {
      assert (a + b)[..|a + b| - 1] == a + b[..|b| - 1];
      OccurrencesAppend(a, b[..|b| - 1], t);
    } else {
      assert a + b == a;
    }
  }

  lemma {:induction false} AnchorCountAppend(a: seq<string>, b: seq<string>, j: nat)
    ensures AnchorCount(a + b, j) == AnchorCount(a, j) + AnchorCount(b, j)
    decreases |b|
  {
    if b != [] {
      assert (a + b)[..|a + b| - 1] == a + b[..|b| - 1];
      AnchorCountAppend(a, b[..|b| - 1], j);
    } else {
      assert a + b == a;
    }
  }

  /** A board resolution anywhere in the uploads adds 1 to every score and
      so never changes the process picked. */
  lemma BoardResolutionNeutral(a: seq<string>, b: seq<string>)
    ensures ProcessFor(a + [BoardResolution] + b) == ProcessFor(a + b)
  {
    var s, s' := ProcessScores(a + b), ProcessScores(a + [BoardResolution] + b);
    forall j | 0 <= j < 4 ensures s'[j] == s[j] + 1 {
      BoardResolutionAddsOne(a, b, j);
    }
    FirstMaxUnique(s', FirstMax(s));
  }

  /** An extra board resolution adds exactly 1 to every process's score. */
  lemma BoardResolutionAddsOne(a: seq<string>, b: seq<string>, j: nat)
    requires j < 4
    ensures ProcessScores(a + [BoardResolution] + b)[j] == ProcessScores(a + b)[j] + 1
  {
    ProcessScoresCount(a + b, j);
    ProcessScoresCount(a + [BoardResolution] + b, j);
    OccurrencesAppend(a, b, BoardResolution);
    OccurrencesAppend(a + [BoardResolution], b, BoardResolution);
    OccurrencesAppend(a, [BoardResolution], BoardResolution);
    AnchorCountAppend(a, b, j);
    AnchorCountAppend(a + [BoardResolution], b, j);
    AnchorCountAppend(a, [BoardResolution], j);
    assert [BoardResolution][..0] == [];
  }

  /** The classifier never produces an anchor of "Business Licensing", so
      for classifier labels that process's score never exceeds the score of
      "Company Incorporation" and it is never picked. */
  lemma BusinessLicensingNeverPicked(types: seq<string>)
    requires forall i :: 0 <= i < |types| ==> types[i] in DocumentProcessor.DocumentTypeLabels
    ensures ProcessFor(types) != "Business Licensing"
  {
    forall i | 0 <= i < |types| ensures AnchorOf(types[i]) != Some(1) {
      assert types[i] in DocumentProcessor.DocumentTypeLabels;
    }
    NoAnchors(types, 1);
    ProcessScoresCount(types, 0);
    ProcessScoresCount(types, 1);
  }

  /** The "Unknown Process" result of `verify_checklist` cannot happen:
      every process the identifier can pick has a checklist. */
  lemma UnknownProcessUnreachable(types: seq<string>)
    ensures ProcessFor(types) in ProcessChecklists
  {
  }

  // ---------------------------------------------------------------------
  // verify_checklist
  // ---------------------------------------------------------------------

  /** `extract_docx_text`: the text the loader extracts from `path`. The
      loader is given as the texts of the paths it can read; a path it
      cannot read raises inside the loader and yields "". */
  function ExtractDocxText(loaded: map<string, string>, path: string): (text: string)
    ensures path in loaded ==> text == loaded[path]
    ensures path !in loaded ==> text == ""
  {
    if path in loaded then loaded[path] else ""
  }

  /** The name of the first document of `docs[k..]` that is mandatory, not
      yet found and matches the upload: what the first inner loop adds. */
  function FirstContentMatch(docs: seq<DocumentRequirement>, found: set<string>,
                             text: string, filename: string, k: nat): (r: Option<string>)
    requires k <= |docs|
    decreases |docs| - k
  {
    if k == |docs| then None
    else if docs[k].isMandatory && docs[k].documentName !in found && MatchDocumentType(text, filename, docs[k]) then
      Some(docs[k].documentName)
    else FirstContentMatch(docs, found, text, filename, k + 1)
  }

  /** What the first inner loop adds is a mandatory name not found before,
      and it adds nothing only when no such document matches. */
  lemma {:induction false} FirstContentMatchSpec(docs: seq<DocumentRequirement>, found: set<string>,
                                                 text: string, filename: string, k: nat)
    requires k <= |docs|
    ensures var r := FirstContentMatch(docs, found, text, filename, k);
      (r.Some? ==>
        r.value !in found &&
        exists j :: k <= j < |docs| && docs[j].isMandatory && docs[j].documentName == r.value &&
          MatchDocumentType(text, filename, docs[j])) &&
      (r.None? <==> forall j :: k <= j < |docs| && docs[j].isMandatory && docs[j].documentName !in found ==>
          !MatchDocumentType(text, filename, docs[j]))
    decreases |docs| - k
  {
    if k < |docs| {
      FirstContentMatchSpec(docs, found, text, filename, k + 1);
    }
  }

  /** The guard `any(match_document_type(...) for doc in docs if doc.is_mandatory)`. */
  predicate AnyMandatoryMatch(text: string, filename: string, docs: seq<DocumentRequirement>) {
    exists j :: 0 <= j < |docs| && docs[j].isMandatory && MatchDocumentType(text, filename, docs[j])
  }

  /** The found set after one upload of the outer loop. */
  function UploadStep(docs: seq<DocumentRequirement>, loaded: map<string, string>,
                      found: set<string>, upload: UploadedDocument): set<string>
  {
    if upload.fileName == "" || upload.filePath == "" then found
    else
      var text := ExtractDocxText(loaded, upload.filePath);
      var afterContent := match FirstContentMatch(docs, found, text, upload.fileName, 0)
        case Some(name) => found + {name}
        case None => found;
      if !AnyMandatoryMatch(text, upload.fileName, docs) then
        match FindMatchingDocument(upload.fileName, MandatoryNames(docs))
        case Some(name) => if name != "" && name !in afterContent then afterContent + {name} else afterContent
        case None => afterContent
      else afterContent
  }

  /** `found_documents` after the uploads, one after another. */
  function FoundAfter(docs: seq<DocumentRequirement>, loaded: map<string, string>,
                      uploads: seq<UploadedDocument>): set<string>
  {
    if uploads == [] then {}
    else UploadStep(docs, loaded, FoundAfter(docs, loaded, uploads[..|uploads| - 1]), uploads[|uploads| - 1])
  }

  /** The set of a list's elements. */
  function Elements(s: seq<string>): set<string> {
    set x | x in s
  }

  /** `_find_matching_document` only returns a mandatory name that the file
      name normalises to, and such a name already makes the content matcher
      true for its document; so whenever the fallback would find a name the
      `any(...)` guard is true and the fallback is never run. */
  lemma FallbackIsDead(text: string, filename: string, docs: seq<DocumentRequirement>)
    ensures AnyMandatoryMatch(text, filename, docs) || FindMatchingDocument(filename, MandatoryNames(docs)).None?
  {
    var r := FindMatchingDocument(filename, MandatoryNames(docs));
    var i := FindMatchingDocumentSpec(filename, MandatoryNames(docs));
    if r.Some? {
      assert r.value in MandatoryNames(docs);
      var j :| 0 <= j < |docs| && docs[j].isMandatory && docs[j].documentName == r.value;
      assert MatchDocumentType(text, filename, docs[j]);
    }
  }

  /** One upload adds at most one name, a mandatory one, and an upload
      without a file name or path adds nothing. */
  lemma UploadStepAddsAtMostOne(docs: seq<DocumentRequirement>, loaded: map<string, string>,
                                found: set<string>, upload: UploadedDocument)
    ensures var after := UploadStep(docs, loaded, found, upload);
      found <= after && after - found <= Elements(MandatoryNames(docs)) && |after| <= |found| + 1
    ensures upload.fileName == "" || upload.filePath == "" ==> UploadStep(docs, loaded, found, upload) == found
  {
    if upload.fileName != "" && upload.filePath != "" {
      var text := ExtractDocxText(loaded, upload.filePath);
      FallbackIsDead(text, upload.fileName, docs);
      FirstContentMatchSpec(docs, found, text, upload.fileName, 0);
    }
  }

  /** The found set holds only mandatory names of the process and at most
      one name per upload. */
  lemma {:induction false} FoundAfterBounds(docs: seq<DocumentRequirement>, loaded: map<string, string>,
                                            uploads: seq<UploadedDocument>)
    ensures FoundAfter(docs, loaded, uploads) <= Elements(MandatoryNames(docs))
    ensures |FoundAfter(docs, loaded, uploads)| <= |uploads|
  {
    if uploads != [] {
      var init := uploads[..|uploads| - 1];
      FoundAfterBounds(docs, loaded, init);
      UploadStepAddsAtMostOne(docs, loaded, FoundAfter(docs, loaded, init), uploads[|uploads| - 1]);
    }
  }

  /** `found_documents` never loses a name: what the first uploads found is
      still found after the rest. */
  lemma {:induction false} FoundAfterGrows(docs: seq<DocumentRequirement>, loaded: map<string, string>,
                                           uploads: seq<UploadedDocument>, i: nat)
    requires i <= |uploads|
    ensures FoundAfter(docs, loaded, uploads[..i]) <= FoundAfter(docs, loaded, uploads)
    decreases |uploads| - i
  {
    if i < |uploads| {
      var init := uploads[..|uploads| - 1];
      assert init[..i] == uploads[..i];
      FoundAfterGrows(docs, loaded, init, i);
      UploadStepAddsAtMostOne(docs, loaded, FoundAfter(docs, loaded, init), uploads[|uploads| - 1]);
    } else {
      assert uploads[..i] == uploads;
    }
  }

  /** `[doc for doc in mandatory if doc not in found]` */
  function MissingNames(mandatory: seq<string>, found: set<string>): (missing: seq<string>)
    ensures |missing| <= |mandatory|
  {
    if mandatory == [] then []
    else
      var last := mandatory[|mandatory| - 1];
      MissingNames(mandatory[..|mandatory| - 1], found) + (if last in found then [] else [last])
  }

  /** A name is missing exactly when it is mandatory and not found. */
  lemma {:induction false} MissingNamesIff(mandatory: seq<string>, found: set<string>)
    ensures forall x :: x in MissingNames(mandatory, found) <==> x in mandatory && x !in found
    ensures MissingNames(mandatory, found) == [] <==> Elements(mandatory) <= found
  {
    if mandatory != [] {
      var init := mandatory[..|mandatory| - 1];
      MissingNamesIff(init, found);
      assert mandatory == init + [mandatory[|mandatory| - 1]];
    }
  }

  /** The missing names keep the catalogue order: the `k`-th missing name is
      the mandatory name at `idx[k]`, and the positions increase. */
  lemma {:induction false} MissingNamesOrder(mandatory: seq<string>, found: set<string>) returns (idx: seq<nat>)
    ensures |idx| == |MissingNames(mandatory, found)|
    ensures forall k :: 0 <= k < |idx| ==>
      idx[k] < |mandatory| && mandatory[idx[k]] !in found && MissingNames(mandatory, found)[k] == mandatory[idx[k]]
    ensures forall k, l :: 0 <= k < l < |idx| ==> idx[k] < idx[l]
  {
    if mandatory == [] {
      idx := [];
    } else {
      var n := |mandatory| - 1;
      var init := mandatory[..n];
      var idx0 := MissingNamesOrder(init, found);
      var m0 := MissingNames(init, found);
      var m := MissingNames(mandatory, found);
      assert m == m0 + (if mandatory[n] in found then [] else [mandatory[n]]);
      if mandatory[n] in found {
        idx := idx0;
        forall k | 0 <= k < |idx|
          ensures idx[k] < |mandatory| && mandatory[idx[k]] !in found && m[k] == mandatory[idx[k]]
        {
          assert mandatory[idx0[k]] == init[idx0[k]];
        }
      } else {
        idx := idx0 + [n];
        forall k | 0 <= k < |idx|
          ensures idx[k] < |mandatory| && mandatory[idx[k]] !in found && m[k] == mandatory[idx[k]]
        {
          if k < |idx0| {
            assert idx[k] == idx0[k] && m[k] == m0[k];
            assert mandatory[idx0[k]] == init[idx0[k]];
          }
        }
      }
    }
  }

  /** A list without repeats has as many elements as entries. */
  lemma {:induction false} DistinctElements(s: seq<string>)
    requires Distinct(s)
    ensures |Elements(s)| == |s|
  {
    if s != [] {
      var init := s[..|s| - 1];
      DistinctElements(init);
      assert Elements(s) == Elements(init) + {s[|s| - 1]};
      assert s[|s| - 1] !in Elements(init);
    }
  }

  /** `completeness_percentage` before rounding. */
  function Completeness(found: nat, mandatory: nat): real {
    if mandatory > 0 then (found as real / mandatory as real) * 100.0 else 0.0
  }

  /** A ratio of at most one whole is at most 100 percent, and exactly 100
      percent only when whole. */
  lemma CompletenessRange(found: nat, mandatory: nat)
    requires 0 < mandatory && found <= mandatory
    ensures 0.0 <= Completeness(found, mandatory) <= 100.0
    ensures Completeness(found, mandatory) == 100.0 <==> found == mandatory
  {
    var f, m := found as real, mandatory as real;
    assert f / m <= 1.0;
    if found < mandatory {
      assert f / m < 1.0;
    }
  }

  /** Distinct mandatory names are all found exactly when as many names are
      found as there are mandatory documents. */
  lemma FoundAllIff(mandatory: seq<string>, found: set<string>)
    requires Distinct(mandatory) && found <= Elements(mandatory)
    ensures |found| <= |mandatory|
    ensures |found| == |mandatory| <==> Elements(mandatory) <= found
  {
    var all := Elements(mandatory);
    DistinctElements(mandatory);
    SubsetCard(found, all);
    if found != all {
      assert !(all <= found);
      var x :| x in all && x !in found;
      SubsetCard(found, all - {x});
    }
  }

  lemma {:induction false} SubsetCard(a: set<string>, b: set<string>)
    requires a <= b
    ensures |a| <= |b|
    decreases |a|
  {
    if a != {} {
      var x :| x in a;
      SubsetCard(a - {x}, b - {x});
    }
  }

  /** The completeness lies in [0, 100] and is 100 exactly when nothing is
      missing. */
  lemma CompletenessFacts(mandatory: seq<string>, found: set<string>)
    requires |mandatory| > 0 && Distinct(mandatory) && found <= Elements(mandatory)
    ensures 0.0 <= Completeness(|found|, |mandatory|) <= 100.0
    ensures Completeness(|found|, |mandatory|) == 100.0 <==> MissingNames(mandatory, found) == []
  {
    FoundAllIff(mandatory, found);
    MissingNamesIff(mandatory, found);
    CompletenessRange(|found|, |mandatory|);
  }

  /** One pass of the outer loop of `verify_checklist` on one upload: the
      first mandatory, unfound document it matches is marked found; if it
      matches no mandatory document at all, the file-name fallback runs. */
  method CheckUpload(docs: seq<DocumentRequirement>, loaded: map<string, string>,
                     found: set<string>, upload: UploadedDocument)
    returns (after: set<string>)
    ensures after == UploadStep(docs, loaded, found, upload)
  {
    after := found;
    if upload.fileName == "" || upload.filePath == "" {
      return;
    }
    var text := ExtractDocxText(loaded, upload.filePath);
    var k := 0;
    while k < |docs|
      invariant 0 <= k <= |docs| && after == found
      invariant FirstContentMatch(docs, found, text, upload.fileName, 0) ==
        FirstContentMatch(docs, found, text, upload.fileName, k)
    {
      var doc := docs[k];
      if doc.isMandatory && doc.documentName !in after && MatchDocumentType(text, upload.fileName, doc) {
        after := after + {doc.documentName};
        break;
      }
      k := k + 1;
    }
    ghost var afterContent := after;
    assert afterContent == match FirstContentMatch(docs, found, text, upload.fileName, 0)
      case Some(name) => found + {name}
      case None => found;
    if !AnyMandatoryMatch(text, upload.fileName, docs) {
      var matching := FindMatchingDocument(upload.fileName, MandatoryNames(docs));
      if matching.Some? && matching.value != "" && matching.value !in after {
        after := after + {matching.value};
      }
    }
  }

  /** What `verify_checklist` reports for a non-empty upload list, before
      rounding. */
  function ChecklistOutcome(uploads: seq<UploadedDocument>, loaded: map<string, string>): ChecklistResult
    requires uploads != []
  {
    var process := ProcessFor(DocumentTypes(uploads));
    var mandatory := MandatoryNames(ProcessChecklists[process]);
    var found := FoundAfter(ProcessChecklists[process], loaded, uploads);
    var missing := MissingNames(mandatory, found);
    ChecklistResult(process, |uploads|, |mandatory|, missing, Completeness(|found|, |mandatory|), |missing| == 0)
  }

  /** The reported completeness lies in [0, 100]; the result is complete
      exactly when nothing is missing, exactly when the completeness is 100,
      and every missing name is a mandatory one that no upload supplied. */
  lemma ChecklistOutcomeFacts(uploads: seq<UploadedDocument>, loaded: map<string, string>)
    requires uploads != []
    ensures var r := ChecklistOutcome(uploads, loaded);
      var docs := ProcessChecklists[r.processType];
      0.0 <= r.completenessPercentage <= 100.0 &&
      r.requiredDocuments > 0 &&
      (r.isComplete <==> r.missingDocuments == []) &&
      (r.isComplete <==> r.completenessPercentage == 100.0) &&
      (forall x :: x in r.missingDocuments <==>
        x in MandatoryNames(docs) && x !in FoundAfter(docs, loaded, uploads))
  {
    var process := ProcessFor(DocumentTypes(uploads));
    var docs := ProcessChecklists[process];
    var mandatory := MandatoryNames(docs);
    var found := FoundAfter(docs, loaded, uploads);
    CatalogueMandatoryDistinct(process);
    FoundAfterBounds(docs, loaded, uploads);
    CompletenessFacts(mandatory, found);
    MissingNamesIff(mandatory, found);
  }

  /** `verify_checklist`: with no upload the empty "Unknown" result; else the
      identified process, the uploads checked in order against its
      mandatory documents, and the missing names and completeness that
      follow. */
  method VerifyChecklist(uploads: seq<UploadedDocument>, loaded: map<string, string>)
    returns (result: ChecklistResult)
    ensures uploads == [] ==> result == ChecklistResult("Unknown", 0, 0, [], 0.0, false)
    ensures uploads != [] ==> result == ChecklistOutcome(uploads, loaded)
  {
    if uploads == [] {
      return ChecklistResult("Unknown", 0, 0, [], 0.0, false);
    }
    var process := IdentifyProcessType(uploads);
    // The source returns an "Unknown Process" result when the process has
    // no checklist; every process the identifier picks has one.
    var docs := ProcessChecklists[process];
    var mandatory := MandatoryNames(docs);
    var found: set<string> := {};
    var i := 0;
    while i < |uploads|
      invariant 0 <= i <= |uploads|
      invariant found == FoundAfter(docs, loaded, uploads[..i])
    {
      assert uploads[..i + 1][..i] == uploads[..i];
      found := CheckUpload(docs, loaded, found, uploads[i]);
      i := i + 1;
    }
    assert uploads[..i] == uploads;
    var missing := MissingNames(mandatory, found);
    var completeness := Completeness(|found|, |mandatory|);
    result := ChecklistResult(process, |uploads|, |mandatory|, missing, completeness, |missing| == 0);
  }

  // ---------------------------------------------------------------------
  // Descriptions, the user message and the references
  // ---------------------------------------------------------------------

  const UnknownDescription: string := "Unknown legal process"

  /** The words every catalogued description opens with. */
  const DescriptionOpening: string := "You are "

  /** `get_process_description`: the description table looked up with
      `dict.get`, falling back to an unknown legal process. The two longer
      sentences are written as two literals joined by `+` only to keep the
      verifier's reasoning about their characters cheap; each is the one
      sentence of the table. */
  function ProcessDescription(processType: string): string {
    if processType == "Company Incorporation" then DescriptionOpening + "attempting to incorporate a company in ADGM"
    else if processType == "Business Licensing" then DescriptionOpening + "applying for a business license in ADGM"
    else if processType == "Employment Contracts" then DescriptionOpening + ("setting up employment contracts " + "for ADGM operations")
    else if processType == "Commercial Agreements" then DescriptionOpening + ("establishing commercial agreements " + "for ADGM business")
    else UnknownDescription
  }

  /** A catalogued process gets a description opening "You are ";
      any other process type is an unknown legal process. */
  lemma ProcessDescriptionCases(processType: string)
    ensures processType in ProcessNames <==> StartsWith(ProcessDescription(processType), DescriptionOpening)
    ensures processType !in ProcessNames ==> ProcessDescription(processType) == UnknownDescription
  {
    var d := ProcessDescription(processType);
    if processType in ProcessNames {
      PrefixOfConcat(DescriptionOpening, d[|DescriptionOpening|..]);
      assert d == DescriptionOpening + d[|DescriptionOpening|..];
    } else {
      assert UnknownDescription[0] != DescriptionOpening[0];
    }
  }

  /** No description opens like the "Excellent! " message. */
  lemma DescriptionInitial(processType: string)
    ensures |ProcessDescription(processType)| > 0
    ensures ProcessDescription(processType)[0] != "Excellent! "[0]
  {
    ProcessDescriptionCases(processType);
  }

  /** `[f"'{doc}'" for doc in names]` */
  function QuoteEach(names: seq<string>): seq<string> {
    seq(|names|, k requires 0 <= k < |names| => "'" + names[k] + "'")
  }

  /** `generate_user_message` */
  function UserMessage(result: ChecklistResult): string {
    var desc := ProcessDescription(result.processType);
    if result.isComplete then
      "Excellent! " + desc + ". You have uploaded all " + NatToString(result.requiredDocuments)
        + " required documents. Your submission is complete and ready for review."
    else
      desc + ". Based on our reference list, you have uploaded " + NatToString(result.documentsUploaded)
        + " out of " + NatToString(result.requiredDocuments)
        + " required documents. The missing document(s) appear to be: "
        + JoinWith(", ", QuoteEach(result.missingDocuments)) + "."
  }

  /** The message opens with "Excellent! " exactly when the result is
      complete; an incomplete one opens with the process description and
      ends with a full stop. */
  lemma UserMessageOpening(result: ChecklistResult)
    ensures StartsWith(UserMessage(result), "Excellent! ") <==> result.isComplete
    ensures !result.isComplete ==>
      StartsWith(UserMessage(result), ProcessDescription(result.processType)) && EndsWith(UserMessage(result), ".")
  {
    var desc := ProcessDescription(result.processType);
    var required := NatToString(result.requiredDocuments);
    DescriptionInitial(result.processType);
    if result.isComplete {
      var e := "Excellent! ";
      var l1 := ". You have uploaded all ";
      var l2 := " required documents. Your submission is complete and ready for review.";
      StartsWithSelf(e);
      StartsWithAppend(e, desc, e);
      StartsWithAppend(e + desc, l1, e);
      StartsWithAppend(e + desc + l1, required, e);
      StartsWithAppend(e + desc + l1 + required, l2, e);
    } else {
      var uploaded := NatToString(result.documentsUploaded);
      var list := JoinWith(", ", QuoteEach(result.missingDocuments));
      var l1 := ". Based on our reference list, you have uploaded ";
      var l2 := " out of ";
      var l3 := " required documents. The missing document(s) appear to be: ";
      StartsWithSelf(desc);
      StartsWithAppend(desc, l1, desc);
      StartsWithAppend(desc + l1, uploaded, desc);
      StartsWithAppend(desc + l1 + uploaded, l2, desc);
      StartsWithAppend(desc + l1 + uploaded + l2, required, desc);
      StartsWithAppend(desc + l1 + uploaded + l2 + required, l3, desc);
      StartsWithAppend(desc + l1 + uploaded + l2 + required + l3, list, desc);
      StartsWithAppend(desc + l1 + uploaded + l2 + required + l3 + list, ".", desc);
      EndsWithAppend(desc + l1 + uploaded + l2 + required + l3 + list, ".");
      var msg := UserMessage(result);
      assert msg[0] == desc[0];
    }
  }

  /** An incomplete message names every missing document in single quotes,
      together with both counts. */
  lemma UserMessageNamesMissing(result: ChecklistResult)
    requires !result.isComplete
    ensures forall m :: m in result.missingDocuments ==> Contains(UserMessage(result), "'" + m + "'")
    ensures Contains(UserMessage(result), NatToString(result.documentsUploaded))
    ensures Contains(UserMessage(result), NatToString(result.requiredDocuments))
  {
    var desc := ProcessDescription(result.processType);
    var uploaded := NatToString(result.documentsUploaded);
    var required := NatToString(result.requiredDocuments);
    var list := JoinWith(", ", QuoteEach(result.missingDocuments));
    var l1 := ". Based on our reference list, you have uploaded ";
    var l2 := " out of ";
    var l3 := " required documents. The missing document(s) appear to be: ";
    ContainsSelf(uploaded);
    ContainsRight(desc + l1, uploaded, uploaded);
    ContainsLeft(desc + l1 + uploaded, l2, uploaded);
    ContainsLeft(desc + l1 + uploaded + l2, required, uploaded);
    ContainsLeft(desc + l1 + uploaded + l2 + required, l3, uploaded);
    ContainsLeft(desc + l1 + uploaded + l2 + required + l3, list, uploaded);
    ContainsLeft(desc + l1 + uploaded + l2 + required + l3 + list, ".", uploaded);
    ContainsSelf(required);
    ContainsRight(desc + l1 + uploaded + l2, required, required);
    ContainsLeft(desc + l1 + uploaded + l2 + required, l3, required);
    ContainsLeft(desc + l1 + uploaded + l2 + required + l3, list, required);
    ContainsLeft(desc + l1 + uploaded + l2 + required + l3 + list, ".", required);
    forall m | m in result.missingDocuments
      ensures Contains(UserMessage(result), "'" + m + "'")
    {
      var k :| 0 <= k < |result.missingDocuments| && result.missingDocuments[k] == m;
      JoinWithContains(", ", QuoteEach(result.missingDocuments), k);
      ContainsRight(desc + l1 + uploaded + l2 + required + l3, list, "'" + m + "'");
      ContainsLeft(desc + l1 + uploaded + l2 + required + l3 + list, ".", "'" + m + "'");
    }
  }

  /** For a real upload list the message is the "Excellent!" one exactly when
      every mandatory document of the identified process was found, and
      otherwise quotes each mandatory document that no upload supplied. */
  lemma OutcomeMessage(uploads: seq<UploadedDocument>, loaded: map<string, string>)
    requires uploads != []
    ensures var r := ChecklistOutcome(uploads, loaded);
      var docs := ProcessChecklists[r.processType];
      (StartsWith(UserMessage(r), "Excellent! ") <==> forall x :: x in MandatoryNames(docs) ==> x in FoundAfter(docs, loaded, uploads)) &&
      (forall x :: x in MandatoryNames(docs) && x !in FoundAfter(docs, loaded, uploads) ==>
        Contains(UserMessage(r), "'" + x + "'"))
  {
    var r := ChecklistOutcome(uploads, loaded);
    var docs := ProcessChecklists[r.processType];
    ChecklistOutcomeFacts(uploads, loaded);
    MessageForMissing(r, MandatoryNames(docs), FoundAfter(docs, loaded, uploads));
  }

  /** The message of a result whose missing list holds exactly the mandatory
      names not found. */
  lemma MessageForMissing(r: ChecklistResult, mandatory: seq<string>, found: set<string>)
    requires r.isComplete <==> r.missingDocuments == []
    requires forall x :: x in r.missingDocuments <==> x in mandatory && x !in found
    ensures StartsWith(UserMessage(r), "Excellent! ") <==> forall x :: x in mandatory ==> x in found
    ensures forall x :: x in mandatory && x !in found ==> Contains(UserMessage(r), "'" + x + "'")
  {
    UserMessageOpening(r);
    if r.isComplete {
      assert forall x :: x in mandatory ==> x in found;
    } else {
      UserMessageNamesMissing(r);
      var m := r.missingDocuments[0];
      assert m in mandatory && m !in found;
    }
  }

  /** The regulatory references cited by `docs`, without the empty ones. */
  predicate Cites(docs: seq<DocumentRequirement>, reference: string) {
    reference != "" && exists k :: 0 <= k < |docs| && docs[k].adgmReference == reference
  }

  /** The loop of `get_adgm_references`: the distinct non-empty references
      of `docs`. */
  method CollectReferences(docs: seq<DocumentRequirement>) returns (references: set<string>)
    ensures forall r :: r in references <==> Cites(docs, r)
  {
    references := {};
    for i := 0 to |docs|
      invariant forall r :: r in references <==> Cites(docs[..i], r)
    {
      if docs[i].adgmReference != "" {
        references := references + {docs[i].adgmReference};
      }
      assert forall k :: 0 <= k < i ==> docs[..i + 1][k] == docs[..i][k];
      assert docs[..i + 1][i] == docs[i];
    }
    assert docs[..|docs|] == docs;
  }

  /** `get_adgm_references`: the distinct non-empty references of the
      process's documents; none for a process without a checklist. */
  method AdgmReferences(processType: string) returns (references: set<string>)
    ensures processType !in ProcessChecklists ==> references == {}
    ensures processType in ProcessChecklists ==>
      forall r :: r in references <==> Cites(ProcessChecklists[processType], r)
  {
    if processType !in ProcessChecklists {
      return {};
    }
    references := CollectReferences(ProcessChecklists[processType]);
  }
}
