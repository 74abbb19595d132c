/** The rule passes and the score of src/adgm_checker.py. Each pass walks
    its pattern or clause table and appends one issue per finding; the score
    weighs the issues by severity. */
module ComplianceChecker {
  import opened AsciiText
  import opened PhrasePatterns
  import DocumentProcessor

  /** One finding. Severities are the strings "High", "Medium" and "Low". */
  datatype ComplianceIssue = ComplianceIssue(
    issueType: string,
    severity: string,
    description: string,
    section: string,
    clause: string,
    adgmReference: string,
    suggestion: string)

  /** The structure argument as a dictionary that may lack either key. */
  datatype StructureDict = StructureDict(
    title: Option<string>,
    sections: Option<seq<DocumentProcessor.Section>>)

  /** The dictionary `extract_structure` produces, seen as such an argument. */
  function AsDict(s: DocumentProcessor.Structure): StructureDict {
    StructureDict(Some(s.title), Some(s.sections))
  }

  // ---------------------------------------------------------------------
  // The tables built in the constructor

  function Word(w: string): Token { Token(w, false) }
  function WordS(w: string): Token { Token(w, true) }

  /** `ADGM\s+Courts?`, `Abu\s+Dhabi\s+Global\s+Market`,
      `ADGM\s+Companies?\s+Regulations?`, `ADGM\s+Commercial\s+Regulations?` */
  const AdgmJurisdictionPatterns: seq<Pattern> := [
    [Word("adgm"), WordS("court")],
    [Word("abu"), Word("dhabi"), Word("global"), Word("market")],
    [Word("adgm"), WordS("companie"), WordS("regulation")],
    [Word("adgm"), Word("commercial"), WordS("regulation")]]

  /** `UAE\s+Federal\s+Courts?`, `Federal\s+Courts?\s+of\s+UAE`,
      `Dubai\s+Courts?`, `Abu\s+Dhabi\s+Courts?` */
  const FederalCourtPatterns: seq<Pattern> := [
    [Word("uae"), Word("federal"), WordS("court")],
    [Word("federal"), WordS("court"), Word("of"), Word("uae")],
    [Word("dubai"), WordS("court")],
    [Word("abu"), Word("dhabi"), WordS("court")]]

  /** The ambiguous-language patterns of `check_legal_language`, each with
      the description its issues carry. */
  const AmbiguousPatterns: seq<(Pattern, string)> := [
    ([Word("may"), Word("or"), Word("may"), Word("not")], "Ambiguous language - \"may or may not\""),
    ([Word("at"), Word("our"), Word("discretion")], "Vague discretionary language"),
    ([Word("reasonable"), WordS("effort")], "Subjective standard - \"reasonable efforts\""),
    ([Word("best"), WordS("endeavour")], "Subjective standard - \"best endeavours\""),
    ([Word("subject"), Word("to"), Word("availability")], "Conditional language without clear terms")]

  const RequiredClauses: map<string, seq<string>> := map[
    "Articles of Association" := [
      "company name", "registered office", "objects clause", "share capital",
      "directors", "shareholders", "amendment procedures"],
    "Memorandum of Association" := [
      "company name", "registered office", "objects", "liability",
      "share capital", "subscribers"],
    "Board Resolution" := [
      "date", "directors present", "resolution text", "voting results", "signatures"]]

  /** Kept by the constructor and read by no check. */
  const AdgmRegulations: map<string, seq<string>> := map[
    "Companies Regulations 2020" := [
      "Art. 6 - Company Formation", "Art. 15 - Share Capital Requirements",
      "Art. 22 - Director Qualifications", "Art. 45 - Corporate Governance"],
    "Commercial Regulations" := [
      "Art. 3 - Business Licensing", "Art. 8 - Compliance Requirements",
      "Art. 12 - Reporting Obligations"]]

  predicate AllWellFormed(patterns: seq<Pattern>) {
    forall j :: 0 <= j < |patterns| ==> WellFormed(patterns[j])
  }

  lemma TablesWellFormed()
    ensures AllWellFormed(AdgmJurisdictionPatterns)
    ensures AllWellFormed(FederalCourtPatterns)
    ensures forall j :: 0 <= j < |AmbiguousPatterns| ==> WellFormed(AmbiguousPatterns[j].0)
  {
  }

  // ---------------------------------------------------------------------
  // The issues each pass emits

  function JurisdictionError(m: string): (issue: ComplianceIssue)
    ensures issue.severity == "High" && issue.issueType == "Jurisdiction Error" && issue.clause == m
  {
    ComplianceIssue("Jurisdiction Error", "High",
      "Document references " + m + " instead of ADGM Courts",
      "Jurisdiction Clause", m, "ADGM Companies Regulations 2020, Art. 6",
      "Update jurisdiction clause to reference ADGM Courts exclusively")
  }

  const MissingAdgmReference: ComplianceIssue := ComplianceIssue(
    "Missing ADGM Reference", "High", "Document does not reference ADGM jurisdiction",
    "Jurisdiction", "No ADGM reference found", "ADGM Companies Regulations 2020, Art. 6",
    "Add explicit reference to ADGM jurisdiction and courts")

  function MissingClause(clause: string): (issue: ComplianceIssue)
    ensures issue.severity == "High" && issue.issueType == "Missing Required Clause" && issue.clause == clause
  {
    ComplianceIssue("Missing Required Clause", "High",
      "Required clause '" + clause + "' is missing", "Document Structure", clause,
      "ADGM Companies Regulations 2020",
      "Add " + clause + " clause to comply with ADGM requirements")
  }

  function AmbiguousLanguage(description: string, m: string): (issue: ComplianceIssue)
    ensures issue.severity == "Medium" && issue.issueType == "Ambiguous Language"
    ensures issue.description == description && issue.clause == m
  {
    ComplianceIssue("Ambiguous Language", "Medium", description, "Legal Language", m,
      "ADGM Commercial Regulations", "Replace with specific, binding language")
  }

  const MissingTitle: ComplianceIssue := ComplianceIssue(
    "Missing Title", "Medium", "Document lacks a clear title", "Document Structure",
    "No title found", "ADGM Document Standards", "Add a clear, descriptive document title")

  const PoorStructure: ComplianceIssue := ComplianceIssue(
    "Poor Structure", "Low", "Document lacks proper sectioning", "Document Structure",
    "Insufficient sections", "ADGM Document Standards",
    "Organize content into clear, numbered sections")

  // ---------------------------------------------------------------------
  // check_jurisdiction_compliance

  /** The matches of the first `n` patterns, pattern after pattern. */
  function MatchesUpTo(content: string, patterns: seq<Pattern>, n: nat): seq<string>
    requires AllWellFormed(patterns) && n <= |patterns|
  {
    if n == 0 then []
    else MatchesUpTo(content, patterns, n - 1) + FindAll(content, patterns[n - 1], 0)
  }

  function JurisdictionErrors(ms: seq<string>): (issues: seq<ComplianceIssue>)
    ensures |issues| == |ms|
    ensures forall i :: 0 <= i < |ms| ==> issues[i] == JurisdictionError(ms[i])
  {
    seq(|ms|, i requires 0 <= i < |ms| => JurisdictionError(ms[i]))
  }

  lemma JurisdictionErrorsAppend(a: seq<string>, b: seq<string>)
    ensures JurisdictionErrors(a + b) == JurisdictionErrors(a) + JurisdictionErrors(b)
  {
    assert JurisdictionErrors(a + b) == JurisdictionErrors(a) + JurisdictionErrors(b) by {
      var l, r := JurisdictionErrors(a + b), JurisdictionErrors(a) + JurisdictionErrors(b);
      assert |l| == |r|;
      forall i | 0 <= i < |l| ensures l[i] == r[i] {
        if i < |a| {
          assert (a + b)[i] == a[i];
        } else {
          assert (a + b)[i] == b[i - |a|];
        }
      }
    }
  }

  /** Some pattern of the list occurs in the text. */
  predicate AnyOccurs(content: string, patterns: seq<Pattern>) {
    exists j :: 0 <= j < |patterns| && OccursFrom(content, patterns[j], 0)
  }

  /** The forbidden-court matches, pattern after pattern. */
  function ForbiddenMatches(content: string): seq<string> {
    TablesWellFormed();
    MatchesUpTo(content, FederalCourtPatterns, 4)
  }

  /** The `adgm_references` count. */
  function AdgmReferenceCount(content: string): nat {
    TablesWellFormed();
    |MatchesUpTo(content, AdgmJurisdictionPatterns, 4)|
  }

  /** What `check_jurisdiction_compliance` returns. */
  function JurisdictionIssues(content: string): seq<ComplianceIssue> {
    JurisdictionErrors(ForbiddenMatches(content)) +
    (if AdgmReferenceCount(content) == 0 then [MissingAdgmReference] else [])
  }

  /** The inner loop of `check_jurisdiction_compliance`: one error per match. */
  method AppendJurisdictionErrors(issues: seq<ComplianceIssue>, matches: seq<string>)
    returns (extended: seq<ComplianceIssue>)
    ensures extended == issues + JurisdictionErrors(matches)
  {
    extended := issues;
    var m := 0;
    while m < |matches|
      invariant 0 <= m <= |matches|
      invariant extended == issues + JurisdictionErrors(matches[..m])
    {
      assert matches[..m + 1] == matches[..m] + [matches[m]];
      JurisdictionErrorsAppend(matches[..m], [matches[m]]);
      extended := extended + [JurisdictionError(matches[m])];
      m := m + 1;
    }
    assert matches[..m] == matches;
  }

  method CheckJurisdictionCompliance(content: string) returns (issues: seq<ComplianceIssue>)
    ensures issues == JurisdictionIssues(content)
  {
    TablesWellFormed();
    issues := [];
    var p := 0;
    while p < |FederalCourtPatterns|
      invariant 0 <= p <= |FederalCourtPatterns|
      invariant issues == JurisdictionErrors(MatchesUpTo(content, FederalCourtPatterns, p))
    {
      var matches := FindAll(content, FederalCourtPatterns[p], 0);
      ghost var before := MatchesUpTo(content, FederalCourtPatterns, p);
      issues := AppendJurisdictionErrors(issues, matches);
      JurisdictionErrorsAppend(before, matches);
      assert MatchesUpTo(content, FederalCourtPatterns, p + 1) == before + matches;
      p := p + 1;
    }
    var references := 0;
    p := 0;
    while p < |AdgmJurisdictionPatterns|
      invariant 0 <= p <= |AdgmJurisdictionPatterns|
      invariant references == |MatchesUpTo(content, AdgmJurisdictionPatterns, p)|
    {
      references := references + |FindAll(content, AdgmJurisdictionPatterns[p], 0)|;
      p := p + 1;
    }
    if references == 0 {
      issues := issues + [MissingAdgmReference];
    }
  }

  /** No match is collected exactly when no pattern occurs. */
  lemma {:induction false} MatchesEmptyIff(content: string, patterns: seq<Pattern>, n: nat)
    requires AllWellFormed(patterns) && n <= |patterns|
    ensures MatchesUpTo(content, patterns, n) == [] <==>
      forall j :: 0 <= j < n ==> !OccursFrom(content, patterns[j], 0)
  {
    if n > 0 {
      MatchesEmptyIff(content, patterns, n - 1);
      FindAllEmptyIff(content, patterns[n - 1], 0);
    }
  }

  /** Every collected match is a match of one of the patterns. */
  lemma {:induction false} MatchesUpToIndex(content: string, patterns: seq<Pattern>, n: nat, i: nat)
    returns (j: nat, m: nat)
    requires AllWellFormed(patterns) && n <= |patterns|
    requires i < |MatchesUpTo(content, patterns, n)|
    ensures j < n && m < |FindAll(content, patterns[j], 0)|
    ensures MatchesUpTo(content, patterns, n)[i] == FindAll(content, patterns[j], 0)[m]
  {
    assert n > 0;
    var before := MatchesUpTo(content, patterns, n - 1);
    var last := FindAll(content, patterns[n - 1], 0);
    var all := MatchesUpTo(content, patterns, n);
    assert all == before + last;
    if i < |before| {
      assert all[i] == before[i];
      j, m := MatchesUpToIndex(content, patterns, n - 1, i);
    } else {
      assert i - |before| < |last|;
      assert all[i] == last[i - |before|];
      j, m := n - 1, i - |before|;
    }
  }

  /** Every collected match is the text of an occurrence of one of the patterns. */
  lemma MatchIsOccurrence(content: string, patterns: seq<Pattern>, n: nat, i: nat)
    returns (j: nat, k: nat, e: nat)
    requires AllWellFormed(patterns) && n <= |patterns|
    requires i < |MatchesUpTo(content, patterns, n)|
    ensures j < n && k < e <= |content|
    ensures MatchTokens(content, k, patterns[j]) == Some(e)
    ensures MatchesUpTo(content, patterns, n)[i] == content[k..e]
  {
    var m;
    j, m := MatchesUpToIndex(content, patterns, n, i);
    k, e := FindAllOccurrence(content, patterns[j], 0, m);
  }

  /** Each forbidden-court match gives one High "Jurisdiction Error" whose
      clause is the matched text, an occurrence of one of the patterns. */
  lemma JurisdictionErrorIsOccurrence(content: string, i: nat) returns (j: nat, k: nat, e: nat)
    requires i < |ForbiddenMatches(content)|
    ensures j < |FederalCourtPatterns| && k < e <= |content|
    ensures MatchTokens(content, k, FederalCourtPatterns[j]) == Some(e)
    ensures JurisdictionIssues(content)[i] == JurisdictionError(content[k..e])
  {
    TablesWellFormed();
    j, k, e := MatchIsOccurrence(content, FederalCourtPatterns, 4, i);
  }

  /** The ADGM count is zero exactly when none of the four patterns occurs. */
  lemma NoAdgmReferenceIff(content: string)
    ensures AdgmReferenceCount(content) == 0 <==> !AnyOccurs(content, AdgmJurisdictionPatterns)
  {
    TablesWellFormed();
    MatchesEmptyIff(content, AdgmJurisdictionPatterns, 4);
  }

  /** Exactly one "Missing ADGM Reference" issue is emitted when none of the
      four ADGM patterns occurs, and none otherwise, next to one
      "Jurisdiction Error" per forbidden-court match. */
  lemma JurisdictionIssueCounts(content: string)
    ensures CountType(JurisdictionIssues(content), "Missing ADGM Reference") ==
      (if AnyOccurs(content, AdgmJurisdictionPatterns) then 0 else 1)
    ensures CountType(JurisdictionIssues(content), "Jurisdiction Error") == |ForbiddenMatches(content)|
  {
    var errors := JurisdictionErrors(ForbiddenMatches(content));
    var tail := if AdgmReferenceCount(content) == 0 then [MissingAdgmReference] else [];
    CountTypeNone(errors, "Missing ADGM Reference");
    CountTypeAll(errors, "Jurisdiction Error");
    CountTypeAppend(errors, tail, "Missing ADGM Reference");
    CountTypeAppend(errors, tail, "Jurisdiction Error");
    NoAdgmReferenceIff(content);
    assert [MissingAdgmReference][..0] == [];
  }

  // ---------------------------------------------------------------------
  // Counting issues

  function CountType(issues: seq<ComplianceIssue>, t: string): nat {
    if issues == [] then 0
    else CountType(issues[..|issues| - 1], t) + (if issues[|issues| - 1].issueType == t then 1 else 0)
  }

  lemma {:induction false} CountTypeAppend(a: seq<ComplianceIssue>, b: seq<ComplianceIssue>, t: string)
    ensures CountType(a + b, t) == CountType(a, t) + CountType(b, t)
    decreases |b|
  {
    if b != [] {
      assert (a + b)[..|a + b| - 1] == a + b[..|b| - 1];
      CountTypeAppend(a, b[..|b| - 1], t);
    } else {
      assert a + b == a;
    }
  }

  lemma {:induction false} CountTypeNone(issues: seq<ComplianceIssue>, t: string)
    requires forall i :: 0 <= i < |issues| ==> issues[i].issueType != t
    ensures CountType(issues, t) == 0
  {
    if issues != [] {
      CountTypeNone(issues[..|issues| - 1], t);
    }
  }

  lemma {:induction false} CountTypeAll(issues: seq<ComplianceIssue>, t: string)
    requires forall i :: 0 <= i < |issues| ==> issues[i].issueType == t
    ensures CountType(issues, t) == |issues|
  {
    if issues != [] {
      CountTypeAll(issues[..|issues| - 1], t);
    }
  }

  /** `len([i for i in issues if i.severity == sev])` */
  function CountSeverity(issues: seq<ComplianceIssue>, sev: string): (n: nat)
    ensures n <= |issues|
  {
    if issues == [] then 0
    else CountSeverity(issues[..|issues| - 1], sev) + (if issues[|issues| - 1].severity == sev then 1 else 0)
  }

  lemma {:induction false} CountSeverityAppend(a: seq<ComplianceIssue>, b: seq<ComplianceIssue>, sev: string)
    ensures CountSeverity(a + b, sev) == CountSeverity(a, sev) + CountSeverity(b, sev)
    decreases |b|
  {
    if b != [] {
      assert (a + b)[..|a + b| - 1] == a + b[..|b| - 1];
      CountSeverityAppend(a, b[..|b| - 1], sev);
    } else {
      assert a + b == a;
    }
  }

  predicate KnownSeverities(issues: seq<ComplianceIssue>) {
    forall i :: 0 <= i < |issues| ==> issues[i].severity in {"High", "Medium", "Low"}
  }

  /** When every severity is one of the three, the three counts add up to
      the number of issues. */
  lemma {:induction false} SeverityPartition(issues: seq<ComplianceIssue>)
    requires KnownSeverities(issues)
    ensures CountSeverity(issues, "High") + CountSeverity(issues, "Medium") + CountSeverity(issues, "Low") == |issues|
  {
    if issues != [] {
      SeverityPartition(issues[..|issues| - 1]);
      var s := issues[|issues| - 1].severity;
      assert s in {"High", "Medium", "Low"};
    }
  }

  // ---------------------------------------------------------------------
  // check_required_clauses

  /** The listed clauses that are not substrings of `lowered`, in list order. */
  function MissingClauses(clauses: seq<string>, lowered: string): (missing: seq<string>)
    ensures |missing| <= |clauses|
  {
    if clauses == [] then []
    else
      var c := clauses[|clauses| - 1];
      MissingClauses(clauses[..|clauses| - 1], lowered) + (if Contains(lowered, c) then [] else [c])
  }

  function MissingClauseIssues(missing: seq<string>): (issues: seq<ComplianceIssue>)
    ensures |issues| == |missing|
    ensures forall i :: 0 <= i < |missing| ==> issues[i] == MissingClause(missing[i])
  {
    seq(|missing|, i requires 0 <= i < |missing| => MissingClause(missing[i]))
  }

  /** What `check_required_clauses` returns. */
  function ClauseIssues(documentType: string, content: string): seq<ComplianceIssue> {
    if documentType in RequiredClauses then
      MissingClauseIssues(MissingClauses(RequiredClauses[documentType], Lower(content)))
    else []
  }

  method CheckRequiredClauses(documentType: string, content: string) returns (issues: seq<ComplianceIssue>)
    ensures issues == ClauseIssues(documentType, content)
  {
    issues := [];
    if documentType !in RequiredClauses {
      return;
    }
    var required := RequiredClauses[documentType];
    var lowered := Lower(content);
    var k := 0;
    while k < |required|
      invariant 0 <= k <= |required|
      invariant issues == MissingClauseIssues(MissingClauses(required[..k], lowered))
    {
      assert required[..k + 1][..k] == required[..k];
      var clause := required[k];
      if !Contains(lowered, clause) {
        issues := issues + [MissingClause(clause)];
      }
      k := k + 1;
    }
    assert required[..k] == required;
  }

  /** A clause is reported missing exactly when it is listed and is not a
      substring of the lowered text. */
  lemma {:induction false} MissingClausesIff(clauses: seq<string>, lowered: string, c: string)
    ensures c in MissingClauses(clauses, lowered) <==> c in clauses && !Contains(lowered, c)
  {
    if clauses != [] {
      var init := clauses[..|clauses| - 1];
      MissingClausesIff(init, lowered, c);
      assert clauses == init + [clauses[|clauses| - 1]];
    }
  }

  /** Every clause present means no issue, and an unknown document type
      yields no issue whatever the text. */
  lemma ClauseIssuesEmpty(documentType: string, content: string)
    ensures documentType !in RequiredClauses ==> ClauseIssues(documentType, content) == []
    ensures documentType in RequiredClauses ==>
      (ClauseIssues(documentType, content) == [] <==>
       forall k :: 0 <= k < |RequiredClauses[documentType]| ==>
         Contains(Lower(content), RequiredClauses[documentType][k]))
  {
    if documentType in RequiredClauses {
      var required := RequiredClauses[documentType];
      var lowered := Lower(content);
      var missing := MissingClauses(required, lowered);
      if missing == [] {
        forall k | 0 <= k < |required| ensures Contains(lowered, required[k]) {
          MissingClausesIff(required, lowered, required[k]);
        }
      } else {
        MissingClausesIff(required, lowered, missing[0]);
      }
    }
  }

  /** A Board Resolution whose text names none of its five clauses gets five
      issues, one per clause in table order. */
  lemma BoardResolutionWithoutClauses(content: string)
    requires forall k :: 0 <= k < 5 ==> !Contains(Lower(content), RequiredClauses["Board Resolution"][k])
    ensures ClauseIssues("Board Resolution", content) == [
      MissingClause("date"), MissingClause("directors present"), MissingClause("resolution text"),
      MissingClause("voting results"), MissingClause("signatures")]
  {
    AllMissing(RequiredClauses["Board Resolution"], Lower(content));
  }

  lemma {:induction false} AllMissing(clauses: seq<string>, lowered: string)
    requires forall k :: 0 <= k < |clauses| ==> !Contains(lowered, clauses[k])
    ensures MissingClauses(clauses, lowered) == clauses
  {
    if clauses != [] {
      AllMissing(clauses[..|clauses| - 1], lowered);
    }
  }

  // ---------------------------------------------------------------------
  // check_legal_language

  function AmbiguousIssues(description: string, ms: seq<string>): (issues: seq<ComplianceIssue>)
    ensures |issues| == |ms|
    ensures forall i :: 0 <= i < |ms| ==> issues[i] == AmbiguousLanguage(description, ms[i])
  {
    seq(|ms|, i requires 0 <= i < |ms| => AmbiguousLanguage(description, ms[i]))
  }

  lemma AmbiguousIssuesAppend(description: string, a: seq<string>, b: seq<string>)
    ensures AmbiguousIssues(description, a + b) == AmbiguousIssues(description, a) + AmbiguousIssues(description, b)
  {
    var l, r := AmbiguousIssues(description, a + b), AmbiguousIssues(description, a) + AmbiguousIssues(description, b);
    assert |l| == |r|;
    forall i | 0 <= i < |l| ensures l[i] == r[i] {
      if i < |a| {
        assert (a + b)[i] == a[i];
      } else {
        assert (a + b)[i] == b[i - |a|];
      }
    }
  }

  /** The issues of the first `n` ambiguous patterns, pattern after pattern. */
  function LanguageIssuesUpTo(content: string, n: nat): seq<ComplianceIssue>
    requires n <= |AmbiguousPatterns|
  {
    if n == 0 then []
    else
      TablesWellFormed();
      var entry := AmbiguousPatterns[n - 1];
      LanguageIssuesUpTo(content, n - 1) + AmbiguousIssues(entry.1, FindAll(content, entry.0, 0))
  }

  /** What `check_legal_language` returns. */
  function LanguageIssues(content: string): seq<ComplianceIssue> {
    LanguageIssuesUpTo(content, |AmbiguousPatterns|)
  }

  /** The inner loop of `check_legal_language`: one issue per match. */
  method AppendAmbiguousIssues(issues: seq<ComplianceIssue>, description: string, matches: seq<string>)
    returns (extended: seq<ComplianceIssue>)
    ensures extended == issues + AmbiguousIssues(description, matches)
  {
    extended := issues;
    var m := 0;
    while m < |matches|
      invariant 0 <= m <= |matches|
      invariant extended == issues + AmbiguousIssues(description, matches[..m])
    {
      assert matches[..m + 1] == matches[..m] + [matches[m]];
      AmbiguousIssuesAppend(description, matches[..m], [matches[m]]);
      extended := extended + [AmbiguousLanguage(description, matches[m])];
      m := m + 1;
    }
    assert matches[..m] == matches;
  }

  method CheckLegalLanguage(content: string) returns (issues: seq<ComplianceIssue>)
    ensures issues == LanguageIssues(content)
  {
    TablesWellFormed();
    issues := [];
    var p := 0;
    while p < |AmbiguousPatterns|
      invariant 0 <= p <= |AmbiguousPatterns|
      invariant issues == LanguageIssuesUpTo(content, p)
    {
      var pattern, description := AmbiguousPatterns[p].0, AmbiguousPatterns[p].1;
      var matches := FindAll(content, pattern, 0);
      ghost var before := issues;
      issues := AppendAmbiguousIssues(issues, description, matches);
      assert LanguageIssuesUpTo(content, p + 1) == before + AmbiguousIssues(description, matches);
      p := p + 1;
    }
  }

  /** Each language issue is a Medium "Ambiguous Language" issue whose clause
      is the text of an occurrence of one of the patterns, with that
      pattern's description. */
  lemma {:induction false} LanguageIssueIsOccurrence(content: string, n: nat, i: nat)
    returns (j: nat, k: nat, e: nat)
    requires n <= |AmbiguousPatterns| && i < |LanguageIssuesUpTo(content, n)|
    ensures j < n && k < e <= |content|
    ensures MatchTokens(content, k, AmbiguousPatterns[j].0) == Some(e)
    ensures LanguageIssuesUpTo(content, n)[i] == AmbiguousLanguage(AmbiguousPatterns[j].1, content[k..e])
  {
    TablesWellFormed();
    assert n > 0;
    var before := LanguageIssuesUpTo(content, n - 1);
    var pattern, description := AmbiguousPatterns[n - 1].0, AmbiguousPatterns[n - 1].1;
    var ms := FindAll(content, pattern, 0);
    var all := LanguageIssuesUpTo(content, n);
    var last := AmbiguousIssues(description, ms);
    assert all == before + last;
    if i < |before| {
      assert all[i] == before[i];
      j, k, e := LanguageIssueIsOccurrence(content, n - 1, i);
    } else {
      assert i - |before| < |last|;
      assert all[i] == last[i - |before|];
      j := n - 1;
      k, e := FindAllOccurrence(content, pattern, 0, i - |before|);
    }
  }

  /** No language issue exactly when none of the five patterns occurs. */
  lemma {:induction false} LanguageIssuesEmptyIff(content: string, n: nat)
    requires n <= |AmbiguousPatterns|
    ensures LanguageIssuesUpTo(content, n) == [] <==>
      forall j :: 0 <= j < n ==> !OccursFrom(content, AmbiguousPatterns[j].0, 0)
  {
    TablesWellFormed();
    if n > 0 {
      LanguageIssuesEmptyIff(content, n - 1);
      FindAllEmptyIff(content, AmbiguousPatterns[n - 1].0, 0);
    }
  }

  // ---------------------------------------------------------------------
  // check_formatting_compliance

  /** What `check_formatting_compliance` returns: a Medium issue when the
      title is absent or empty, then a Low issue when the sections are
      absent or fewer than two. */
  function FormattingIssues(structure: StructureDict): (issues: seq<ComplianceIssue>)
    ensures |issues| <= 2
    ensures MissingTitle in issues <==> structure.title.GetOr("") == ""
    ensures PoorStructure in issues <==> |structure.sections.GetOr([])| < 2
    ensures forall i :: 0 <= i < |issues| ==> issues[i] == MissingTitle || issues[i] == PoorStructure
    ensures |issues| == (if structure.title.GetOr("") == "" then 1 else 0) + (if |structure.sections.GetOr([])| < 2 then 1 else 0)
    ensures |issues| == 2 ==> issues == [MissingTitle, PoorStructure]
  {
    (if structure.title.GetOr("") == "" then [MissingTitle] else []) +
    (if |structure.sections.GetOr([])| < 2 then [PoorStructure] else [])
  }

  // ---------------------------------------------------------------------
  // check_compliance

  /** On the dictionary `extract_structure` builds, the formatting pass
      flags an empty title and fewer than two sections (one per heading
      paragraph), and nothing else. */
  lemma ExtractedFormatting(s: DocumentProcessor.Structure)
    ensures MissingTitle in FormattingIssues(AsDict(s)) <==> s.title == ""
    ensures PoorStructure in FormattingIssues(AsDict(s)) <==> |s.sections| < 2
    ensures |FormattingIssues(AsDict(s))| == (if s.title == "" then 1 else 0) + (if |s.sections| < 2 then 1 else 0)
  {
  }

  /** The issue list of `check_compliance`, in pass order. */
  function AllIssues(documentType: string, content: string, structure: StructureDict): seq<ComplianceIssue> {
    JurisdictionIssues(content) + ClauseIssues(documentType, content) +
    LanguageIssues(content) + FormattingIssues(structure)
  }

  /** The weighted score: 100 with no issue, otherwise 100 less the weight
      (High 3, Medium 2, Low 1) as a percentage of three per issue, and
      never below 0. Unrounded. */
  function ComplianceScore(total: nat, high: nat, medium: nat, low: nat): real {
    if total == 0 then 100.0
    else
      var weighted := (3 * high + 2 * medium + low) as real;
      var maxPossible := (3 * total) as real;
      var score := 100.0 - (weighted / maxPossible) * 100.0;
      if score < 0.0 then 0.0 else score
  }

  /** The dictionary `check_compliance` returns, issues kept as records and
      the score unrounded. */
  datatype ComplianceReport = ComplianceReport(
    complianceScore: real,
    totalIssues: nat,
    highSeverityIssues: nat,
    mediumSeverityIssues: nat,
    lowSeverityIssues: nat,
    issues: seq<ComplianceIssue>,
    isCompliant: bool)

  method CheckCompliance(documentType: string, content: string, structure: StructureDict)
    returns (report: ComplianceReport)
    ensures report.issues == AllIssues(documentType, content, structure)
    ensures report.totalIssues == |report.issues|
    ensures report.highSeverityIssues == CountSeverity(report.issues, "High")
    ensures report.mediumSeverityIssues == CountSeverity(report.issues, "Medium")
    ensures report.lowSeverityIssues == CountSeverity(report.issues, "Low")
    ensures report.highSeverityIssues + report.mediumSeverityIssues + report.lowSeverityIssues == report.totalIssues
    ensures report.complianceScore == ComplianceScore(report.totalIssues,
      report.highSeverityIssues, report.mediumSeverityIssues, report.lowSeverityIssues)
    ensures report.isCompliant <==> report.issues == []
  {
    var all: seq<ComplianceIssue> := [];
    var jurisdiction := CheckJurisdictionCompliance(content);
    all := all + jurisdiction;
    assert all == JurisdictionIssues(content);
    var clauses := CheckRequiredClauses(documentType, content);
    all := all + clauses;
    var language := CheckLegalLanguage(content);
    all := all + language;
    all := all + FormattingIssues(structure);
    assert all == AllIssues(documentType, content, structure);
    AllIssuesKnownSeverities(documentType, content, structure);
    var total := |all|;
    var high := CountSeverity(all, "High");
    var medium := CountSeverity(all, "Medium");
    var low := CountSeverity(all, "Low");
    ReportCounts(all);
    var score := ComplianceScore(total, high, medium, low);
    report := ComplianceReport(score, total, high, medium, low, all, score >= 80.0);
  }

  /** For an issue list with known severities the three counts add up and
      the list is compliant exactly when it is empty. */
  lemma ReportCounts(issues: seq<ComplianceIssue>)
    requires KnownSeverities(issues)
    ensures var h, m, l := CountSeverity(issues, "High"), CountSeverity(issues, "Medium"), CountSeverity(issues, "Low");
      h + m + l == |issues| && (ComplianceScore(|issues|, h, m, l) >= 80.0 <==> issues == [])
  {
    SeverityPartition(issues);
    CompliantIffNoIssues(|issues|, CountSeverity(issues, "High"), CountSeverity(issues, "Medium"), CountSeverity(issues, "Low"));
  }

  lemma KnownSeveritiesAppend(a: seq<ComplianceIssue>, b: seq<ComplianceIssue>)
    requires KnownSeverities(a) && KnownSeverities(b)
    ensures KnownSeverities(a + b)
  {
    forall i | 0 <= i < |a + b| ensures (a + b)[i].severity in {"High", "Medium", "Low"} {
      if i < |a| {
        assert (a + b)[i] == a[i];
      } else {
        assert (a + b)[i] == b[i - |a|];
      }
    }
  }

  lemma {:induction false} LanguageKnownSeverities(content: string, n: nat)
    requires n <= |AmbiguousPatterns|
    ensures KnownSeverities(LanguageIssuesUpTo(content, n))
  {
    if n > 0 {
      LanguageKnownSeverities(content, n - 1);
      TablesWellFormed();
      var entry := AmbiguousPatterns[n - 1];
      KnownSeveritiesAppend(LanguageIssuesUpTo(content, n - 1),
        AmbiguousIssues(entry.1, FindAll(content, entry.0, 0)));
    }
  }

  /** Every issue any pass emits is High, Medium or Low. */
  lemma AllIssuesKnownSeverities(documentType: string, content: string, structure: StructureDict)
    ensures KnownSeverities(AllIssues(documentType, content, structure))
  {
    var j, c, l, f := JurisdictionIssues(content), ClauseIssues(documentType, content),
      LanguageIssues(content), FormattingIssues(structure);
    assert KnownSeverities(j);
    assert KnownSeverities(c);
    LanguageKnownSeverities(content, |AmbiguousPatterns|);
    assert KnownSeverities(f);
    KnownSeveritiesAppend(j, c);
    KnownSeveritiesAppend(j + c, l);
    KnownSeveritiesAppend(j + c + l, f);
  }

  // ---------------------------------------------------------------------
  // Facts about the score

  /** With the counts of a real issue list, the clamp at 0 never applies:
      the score is exactly 100 - 100 (3h + 2m + l) / 3t. */
  lemma ScoreFormula(total: nat, high: nat, medium: nat, low: nat)
    requires high + medium + low == total && total > 0
    ensures ComplianceScore(total, high, medium, low) ==
      100.0 - ((3 * high + 2 * medium + low) as real / (3 * total) as real) * 100.0
  {
    var w := (3 * high + 2 * medium + low) as real;
    var t := (3 * total) as real;
    QuotientAtMost(w, t, 1.0);
  }

  /** The score lies between 0 and 100, and below 100 - 100/3 as soon as
      there is an issue. */
  lemma ScoreBounds(total: nat, high: nat, medium: nat, low: nat)
    requires high + medium + low == total
    ensures 0.0 <= ComplianceScore(total, high, medium, low) <= 100.0
    ensures total > 0 ==> ComplianceScore(total, high, medium, low) <= 200.0 / 3.0
  {
    if total > 0 {
      ScoreFormula(total, high, medium, low);
      var w := (3 * high + 2 * medium + low) as real;
      var t := (3 * total) as real;
      QuotientAtLeast(w, t, 1.0 / 3.0);
    }
  }

  /** With issues, the score is 0 exactly when every issue is High. */
  lemma ScoreZeroIffAllHigh(total: nat, high: nat, medium: nat, low: nat)
    requires high + medium + low == total && total > 0
    ensures ComplianceScore(total, high, medium, low) == 0.0 <==> high == total
  {
    ScoreFormula(total, high, medium, low);
    var w := (3 * high + 2 * medium + low) as real;
    var t := (3 * total) as real;
    if high < total {
      QuotientBelow(w, t, 1.0);
    }
  }

  lemma QuotientAtMost(a: real, b: real, c: real)
    requires b > 0.0 && a <= c * b
    ensures a / b <= c
  {
    var q := a / b;
    assert q * b == a;
    assert (q - c) * b <= 0.0;
  }

  lemma QuotientAtLeast(a: real, b: real, c: real)
    requires b > 0.0 && a >= c * b
    ensures a / b >= c
  {
    var q := a / b;
    assert q * b == a;
    assert (q - c) * b >= 0.0;
  }

  lemma QuotientBelow(a: real, b: real, c: real)
    requires b > 0.0 && a < c * b
    ensures a / b < c
  {
    var q := a / b;
    assert q * b == a;
    assert (q - c) * b < 0.0;
  }

  lemma FractionLe(a: real, b: real, c: real, d: real)
    requires b > 0.0 && d > 0.0 && a * d <= c * b
    ensures a / b <= c / d
  {
    var x, y := a / b, c / d;
    assert x * b == a && y * d == c;
    assert x * b * d <= y * d * b;
    assert (x - y) * (b * d) <= 0.0;
  }

  /** One more High issue never raises the score. */
  lemma ScoreMonotoneInHigh(total: nat, high: nat, medium: nat, low: nat)
    requires high + medium + low == total
    ensures ComplianceScore(total + 1, high + 1, medium, low) <= ComplianceScore(total, high, medium, low)
  {
    if total > 0 {
      ScoreFormula(total, high, medium, low);
      ScoreFormula(total + 1, high + 1, medium, low);
      var w := (3 * high + 2 * medium + low) as real;
      var t := (3 * total) as real;
      assert w <= t;
      FractionLe(w, t, w + 3.0, t + 3.0);
    } else {
      ScoreFormula(1, 1, 0, 0);
    }
  }

  /** `is_compliant` (unrounded score at least 80) holds exactly when there
      is no issue: any issue keeps the score at or below 100 - 100/3. */
  lemma CompliantIffNoIssues(total: nat, high: nat, medium: nat, low: nat)
    requires high + medium + low == total
    ensures ComplianceScore(total, high, medium, low) >= 80.0 <==> total == 0
  {
    ScoreBounds(total, high, medium, low);
  }
}
