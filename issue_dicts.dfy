/** Issues as the dictionaries that travel between the checker, the
    knowledge lookup and the comment builder: text fields under fixed keys,
    to which the lookup may add a list of cited references and a list of
    links. */
module IssueDicts {
  import opened AsciiText
  import ComplianceChecker

  /** One entry of an issue's 'legal_references' list. */
  datatype CitedReference = CitedReference(
    title: string,
    content: string,
    source: string,
    article: string,
    citation: string)

  datatype Value =
    | Text(text: string)
    | References(references: seq<CitedReference>)
    | Links(links: seq<string>)

  type Issue = map<string, Value>

  /** `issue.get(key, default)` for a text field. A key holding something
      other than text reads as absent. */
  function Get(issue: Issue, key: string, default: string): string {
    if key in issue && issue[key].Text? then issue[key].text else default
  }

  /** The keys of the dictionary `check_compliance` makes of each issue. */
  const IssueKeys: set<string> :=
    {"type", "severity", "description", "section", "clause", "adgm_reference", "suggestion"}

  /** The dictionary `check_compliance` makes of one issue record. */
  function IssueDict(i: ComplianceChecker.ComplianceIssue): Issue {
    map[
      "type" := Text(i.issueType),
      "severity" := Text(i.severity),
      "description" := Text(i.description),
      "section" := Text(i.section),
      "clause" := Text(i.clause),
      "adgm_reference" := Text(i.adgmReference),
      "suggestion" := Text(i.suggestion)]
  }

  /** The issue record read back from its dictionary. */
  function IssueRecord(d: Issue): ComplianceChecker.ComplianceIssue {
    ComplianceChecker.ComplianceIssue(
      Get(d, "type", ""), Get(d, "severity", ""), Get(d, "description", ""),
      Get(d, "section", ""), Get(d, "clause", ""), Get(d, "adgm_reference", ""),
      Get(d, "suggestion", ""))
  }

  /** The dictionary holds exactly the seven keys, each as text, and reading
      it back gives the record it was made from. */
  lemma IssueDictRoundTrip(i: ComplianceChecker.ComplianceIssue)
    ensures IssueDict(i).Keys == IssueKeys
    ensures forall k :: k in IssueDict(i) ==> IssueDict(i)[k].Text?
    ensures IssueRecord(IssueDict(i)) == i
  {
  }
}
