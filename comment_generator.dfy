/** The text builders of src/comment_generator.py: the comment written for
    one issue, the choice of the paragraph it is attached to, the keywords
    that choice falls back on, and the compliance summary. Writing the
    annotations into the document is not part of this model. */
module CommentGenerator {
  import opened AsciiText
  import opened IssueDicts
  import ComplianceChecker

  // ---------------------------------------------------------------------
  // Reading labelled lines back
  // ---------------------------------------------------------------------

  /** The rest of the first line that starts with `tag`, if any. */
  function LabelValue(lines: seq<string>, tag: string): Option<string> {
    if lines == [] then None
    else if StartsWith(lines[0], tag) then Some(lines[0][|tag|..])
    else LabelValue(lines[1..], tag)
  }

  /** When every line that starts with `tag` is `tag + v`, and there is
      one, the tag reads `v`; when there is none, it reads nothing. */
  lemma {:induction false} LabelValueOf(lines: seq<string>, tag: string, v: string)
    requires forall x :: x in lines && StartsWith(x, tag) ==> x == tag + v
    ensures (tag + v in lines) ==> LabelValue(lines, tag) == Some(v)
    ensures (tag + v !in lines) ==> LabelValue(lines, tag) == None
  {
    if lines != [] {
      assert forall x :: x in lines[1..] ==> x in lines;
      LabelValueOf(lines[1..], tag, v);
      if StartsWith(lines[0], tag) {
        assert lines[0][|tag|..] == v;
      } else {
        assert lines[0] != tag + v by {
          assert (tag + v)[..|tag|] == tag;
        }
        assert tag + v in lines <==> tag + v in lines[1..];
      }
    }
  }

  /** A line opening with `a` does not start with `b` when the two differ
      at a position both have. */
  lemma PrefixClash(a: string, v: string, b: string, k: nat)
    requires k < |a| && k < |b| && a[k] != b[k]
    ensures !StartsWith(a + v, b)
  {
    if |b| <= |a + v| {
      assert (a + v)[..|b|][k] == a[k];
    }
  }

  // ---------------------------------------------------------------------
  // The comment for one issue
  // ---------------------------------------------------------------------

  const IssueLabel: string := "ISSUE: "
  const SeverityLabel: string := "SEVERITY: "
  const DescriptionLabel: string := "DESCRIPTION: "
  const SectionLabel: string := "SECTION: "
  const ReferenceLabel: string := "ADGM REFERENCE: "
  const SuggestionLabel: string := "SUGGESTION: "

  /** The `comment_parts` list `_format_comment_text` builds. */
  function CommentLines(issueType: string, severity: string, description: string,
                        section: string, adgmReference: string, suggestion: string): seq<string>
  {
    [IssueLabel + issueType, SeverityLabel + severity, "", DescriptionLabel + description, ""]
    + (if section != "" then [SectionLabel + section] else [])
    + (if adgmReference != "" then [ReferenceLabel + adgmReference] else [])
    + [""]
    + (if suggestion != "" then [SuggestionLabel + suggestion] else [])
  }

  /** `_format_comment_text` */
  function FormatCommentText(issueType: string, severity: string, description: string,
                             section: string, adgmReference: string, suggestion: string): string
  {
    JoinWith("\n", CommentLines(issueType, severity, description, section, adgmReference, suggestion))
  }

  /** What a reader finds after `tag` in a comment. */
  function CommentField(text: string, tag: string): Option<string> {
    LabelValue(SplitOn(text, '\n'), tag)
  }

  /** Each comment line is a labelled field or blank; the optional fields
      are present exactly when non-empty. */
  lemma CommentLinesContent(issueType: string, severity: string, description: string,
                            section: string, adgmReference: string, suggestion: string)
    ensures var lines := CommentLines(issueType, severity, description, section, adgmReference, suggestion);
      |lines| >= 6 &&
      forall x :: x in lines <==>
        x == IssueLabel + issueType || x == SeverityLabel + severity || x == "" ||
        x == DescriptionLabel + description ||
        (section != "" && x == SectionLabel + section) ||
        (adgmReference != "" && x == ReferenceLabel + adgmReference) ||
        (suggestion != "" && x == SuggestionLabel + suggestion)
  {
  }

  /** The six labels differ from one another at a position both have, so
      no labelled line starts with another line's tag. */
  lemma LabelsClash(v: string)
    ensures !StartsWith(IssueLabel + v, SeverityLabel) && !StartsWith(IssueLabel + v, DescriptionLabel)
      && !StartsWith(IssueLabel + v, SectionLabel) && !StartsWith(IssueLabel + v, ReferenceLabel)
      && !StartsWith(IssueLabel + v, SuggestionLabel)
    ensures !StartsWith(SeverityLabel + v, IssueLabel) && !StartsWith(SeverityLabel + v, DescriptionLabel)
      && !StartsWith(SeverityLabel + v, SectionLabel) && !StartsWith(SeverityLabel + v, ReferenceLabel)
      && !StartsWith(SeverityLabel + v, SuggestionLabel)
    ensures !StartsWith(DescriptionLabel + v, IssueLabel) && !StartsWith(DescriptionLabel + v, SeverityLabel)
      && !StartsWith(DescriptionLabel + v, SectionLabel) && !StartsWith(DescriptionLabel + v, ReferenceLabel)
      && !StartsWith(DescriptionLabel + v, SuggestionLabel)
    ensures !StartsWith(SectionLabel + v, IssueLabel) && !StartsWith(SectionLabel + v, SeverityLabel)
      && !StartsWith(SectionLabel + v, DescriptionLabel) && !StartsWith(SectionLabel + v, ReferenceLabel)
      && !StartsWith(SectionLabel + v, SuggestionLabel)
    ensures !StartsWith(ReferenceLabel + v, IssueLabel) && !StartsWith(ReferenceLabel + v, SeverityLabel)
      && !StartsWith(ReferenceLabel + v, DescriptionLabel) && !StartsWith(ReferenceLabel + v, SectionLabel)
      && !StartsWith(ReferenceLabel + v, SuggestionLabel)
    ensures !StartsWith(SuggestionLabel + v, IssueLabel) && !StartsWith(SuggestionLabel + v, SeverityLabel)
      && !StartsWith(SuggestionLabel + v, DescriptionLabel) && !StartsWith(SuggestionLabel + v, SectionLabel)
      && !StartsWith(SuggestionLabel + v, ReferenceLabel)
  {
    PrefixClash(IssueLabel, v, SeverityLabel, 0);
    PrefixClash(IssueLabel, v, DescriptionLabel, 0);
    PrefixClash(IssueLabel, v, SectionLabel, 0);
    PrefixClash(IssueLabel, v, ReferenceLabel, 0);
    PrefixClash(IssueLabel, v, SuggestionLabel, 0);
    PrefixClash(SeverityLabel, v, IssueLabel, 0);
    PrefixClash(SeverityLabel, v, DescriptionLabel, 0);
    PrefixClash(SeverityLabel, v, SectionLabel, 2);
    PrefixClash(SeverityLabel, v, ReferenceLabel, 0);
    PrefixClash(SeverityLabel, v, SuggestionLabel, 1);
    PrefixClash(DescriptionLabel, v, IssueLabel, 0);
    PrefixClash(DescriptionLabel, v, SeverityLabel, 0);
    PrefixClash(DescriptionLabel, v, SectionLabel, 0);
    PrefixClash(DescriptionLabel, v, ReferenceLabel, 0);
    PrefixClash(DescriptionLabel, v, SuggestionLabel, 0);
    PrefixClash(SectionLabel, v, IssueLabel, 0);
    PrefixClash(SectionLabel, v, SeverityLabel, 2);
    PrefixClash(SectionLabel, v, DescriptionLabel, 0);
    PrefixClash(SectionLabel, v, ReferenceLabel, 0);
    PrefixClash(SectionLabel, v, SuggestionLabel, 1);
    PrefixClash(ReferenceLabel, v, IssueLabel, 0);
    PrefixClash(ReferenceLabel, v, SeverityLabel, 0);
    PrefixClash(ReferenceLabel, v, DescriptionLabel, 0);
    PrefixClash(ReferenceLabel, v, SectionLabel, 0);
    PrefixClash(ReferenceLabel, v, SuggestionLabel, 0);
    PrefixClash(SuggestionLabel, v, IssueLabel, 0);
    PrefixClash(SuggestionLabel, v, SeverityLabel, 1);
    PrefixClash(SuggestionLabel, v, DescriptionLabel, 0);
    PrefixClash(SuggestionLabel, v, SectionLabel, 1);
    PrefixClash(SuggestionLabel, v, ReferenceLabel, 0);
  }

  /** Every line of a comment that starts with one of the labels is that
      tag's own line. */
  lemma CommentLabelsOwnLines(issueType: string, severity: string, description: string,
                              section: string, adgmReference: string, suggestion: string, x: string)
    requires x in CommentLines(issueType, severity, description, section, adgmReference, suggestion)
    ensures StartsWith(x, IssueLabel) ==> x == IssueLabel + issueType
    ensures StartsWith(x, SeverityLabel) ==> x == SeverityLabel + severity
    ensures StartsWith(x, DescriptionLabel) ==> x == DescriptionLabel + description
    ensures StartsWith(x, SectionLabel) ==> section != "" && x == SectionLabel + section
    ensures StartsWith(x, ReferenceLabel) ==> adgmReference != "" && x == ReferenceLabel + adgmReference
    ensures StartsWith(x, SuggestionLabel) ==> suggestion != "" && x == SuggestionLabel + suggestion
  {
    CommentLinesContent(issueType, severity, description, section, adgmReference, suggestion);
    LabelsClash(issueType);
    LabelsClash(severity);
    LabelsClash(description);
    LabelsClash(section);
    LabelsClash(adgmReference);
    LabelsClash(suggestion);
  }

  lemma NoCharConcat(a: string, b: string, c: char)
    requires NoChar(a, c) && NoChar(b, c)
    ensures NoChar(a + b, c)
  {
  }

  lemma LabelsSingleLine()
    ensures NoChar(IssueLabel, '\n') && NoChar(SeverityLabel, '\n') && NoChar(DescriptionLabel, '\n')
    ensures NoChar(SectionLabel, '\n') && NoChar(ReferenceLabel, '\n') && NoChar(SuggestionLabel, '\n')
  {
  }

  /** Splitting the comment text at line breaks gives its lines back, when
      no field holds a line break. */
  lemma CommentTextSplits(issueType: string, severity: string, description: string,
                          section: string, adgmReference: string, suggestion: string)
    requires NoChar(issueType, '\n') && NoChar(severity, '\n') && NoChar(description, '\n')
    requires NoChar(section, '\n') && NoChar(adgmReference, '\n') && NoChar(suggestion, '\n')
    ensures SplitOn(FormatCommentText(issueType, severity, description, section, adgmReference, suggestion), '\n')
      == CommentLines(issueType, severity, description, section, adgmReference, suggestion)
  {
    var lines := CommentLines(issueType, severity, description, section, adgmReference, suggestion);
    CommentLinesContent(issueType, severity, description, section, adgmReference, suggestion);
    LabelsSingleLine();
    NoCharConcat(IssueLabel, issueType, '\n');
    NoCharConcat(SeverityLabel, severity, '\n');
    NoCharConcat(DescriptionLabel, description, '\n');
    NoCharConcat(SectionLabel, section, '\n');
    NoCharConcat(ReferenceLabel, adgmReference, '\n');
    NoCharConcat(SuggestionLabel, suggestion, '\n');
    assert forall k :: 0 <= k < |lines| ==> lines[k] in lines;
    SplitJoinRoundTrip(lines, '\n');
  }

  /** The three fixed fields of a comment read back from its lines. */
  lemma CommentLinesFixedFields(issueType: string, severity: string, description: string,
                                section: string, adgmReference: string, suggestion: string)
    ensures var lines := CommentLines(issueType, severity, description, section, adgmReference, suggestion);
      LabelValue(lines, IssueLabel) == Some(issueType) &&
      LabelValue(lines, SeverityLabel) == Some(severity) &&
      LabelValue(lines, DescriptionLabel) == Some(description)
  {
    var lines := CommentLines(issueType, severity, description, section, adgmReference, suggestion);
    assert lines[0] == IssueLabel + issueType && lines[1] == SeverityLabel + severity;
    assert lines[3] == DescriptionLabel + description;
    forall x | x in lines
      ensures StartsWith(x, IssueLabel) ==> x == IssueLabel + issueType
      ensures StartsWith(x, SeverityLabel) ==> x == SeverityLabel + severity
      ensures StartsWith(x, DescriptionLabel) ==> x == DescriptionLabel + description
    {
      CommentLabelsOwnLines(issueType, severity, description, section, adgmReference, suggestion, x);
    }
    LabelValueOf(lines, IssueLabel, issueType);
    LabelValueOf(lines, SeverityLabel, severity);
    LabelValueOf(lines, DescriptionLabel, description);
  }

  /** SECTION, ADGM REFERENCE and SUGGESTION read back from a comment's
      lines exactly when they are non-empty. */
  lemma CommentLinesOptionalFields(issueType: string, severity: string, description: string,
                                   section: string, adgmReference: string, suggestion: string)
    ensures var lines := CommentLines(issueType, severity, description, section, adgmReference, suggestion);
      LabelValue(lines, SectionLabel) == (if section != "" then Some(section) else None) &&
      LabelValue(lines, ReferenceLabel) == (if adgmReference != "" then Some(adgmReference) else None) &&
      LabelValue(lines, SuggestionLabel) == (if suggestion != "" then Some(suggestion) else None)
  {
    var lines := CommentLines(issueType, severity, description, section, adgmReference, suggestion);
    CommentLinesContent(issueType, severity, description, section, adgmReference, suggestion);
    forall x | x in lines
      ensures StartsWith(x, SectionLabel) ==> section != "" && x == SectionLabel + section
      ensures StartsWith(x, ReferenceLabel) ==> adgmReference != "" && x == ReferenceLabel + adgmReference
      ensures StartsWith(x, SuggestionLabel) ==> suggestion != "" && x == SuggestionLabel + suggestion
    {
      CommentLabelsOwnLines(issueType, severity, description, section, adgmReference, suggestion, x);
    }
    StartsWithSelf(SectionLabel + section);
    StartsWithSelf(ReferenceLabel + adgmReference);
    StartsWithSelf(SuggestionLabel + suggestion);
    PrefixOfConcat(SectionLabel, section);
    PrefixOfConcat(ReferenceLabel, adgmReference);
    PrefixOfConcat(SuggestionLabel, suggestion);
    OptionalFieldOf(lines, SectionLabel, section);
    OptionalFieldOf(lines, ReferenceLabel, adgmReference);
    OptionalFieldOf(lines, SuggestionLabel, suggestion);
  }

  /** A field whose line is present exactly when its value is non-empty. */
  lemma OptionalFieldOf(lines: seq<string>, tag: string, v: string)
    requires forall x :: x in lines && StartsWith(x, tag) ==> x == tag + v
    requires (tag + v in lines) <==> v != ""
    ensures LabelValue(lines, tag) == (if v != "" then Some(v) else None)
  {
    LabelValueOf(lines, tag, v);
  }

  /** The comment text reads back field by field, as its lines do, when no
      field holds a line break. */
  lemma CommentTextRoundTrip(issueType: string, severity: string, description: string,
                             section: string, adgmReference: string, suggestion: string)
    requires NoChar(issueType, '\n') && NoChar(severity, '\n') && NoChar(description, '\n')
    requires NoChar(section, '\n') && NoChar(adgmReference, '\n') && NoChar(suggestion, '\n')
    ensures var text := FormatCommentText(issueType, severity, description, section, adgmReference, suggestion);
      CommentField(text, IssueLabel) == Some(issueType) &&
      CommentField(text, SeverityLabel) == Some(severity) &&
      CommentField(text, DescriptionLabel) == Some(description) &&
      CommentField(text, SectionLabel) == (if section != "" then Some(section) else None) &&
      CommentField(text, ReferenceLabel) == (if adgmReference != "" then Some(adgmReference) else None) &&
      CommentField(text, SuggestionLabel) == (if suggestion != "" then Some(suggestion) else None)
  {
    CommentTextSplits(issueType, severity, description, section, adgmReference, suggestion);
    CommentLinesFixedFields(issueType, severity, description, section, adgmReference, suggestion);
    CommentLinesOptionalFields(issueType, severity, description, section, adgmReference, suggestion);
  }

  /** `_format_comment_text`, appending the lines one by one and joining
      them with line breaks. */
  method FormatComment(issueType: string, severity: string, description: string,
                       section: string, adgmReference: string, suggestion: string)
    returns (text: string)
    ensures text == FormatCommentText(issueType, severity, description, section, adgmReference, suggestion)
  {
    var parts: seq<string> := [];
    parts := parts + [IssueLabel + issueType];
    parts := parts + [SeverityLabel + severity];
    parts := parts + [""];
    parts := parts + [DescriptionLabel + description];
    parts := parts + [""];
    assert parts == [IssueLabel + issueType, SeverityLabel + severity, "", DescriptionLabel + description, ""];
    if section != "" {
      parts := parts + [SectionLabel + section];
    }
    if adgmReference != "" {
      parts := parts + [ReferenceLabel + adgmReference];
    }
    parts := parts + [""];
    if suggestion != "" {
      parts := parts + [SuggestionLabel + suggestion];
    }
    assert parts == CommentLines(issueType, severity, description, section, adgmReference, suggestion);
    text := JoinWith("\n", parts);
  }

  /** The comment `_add_issue_comment` writes for an issue dictionary: the
      severity defaults to "Medium" and every other field to "". */
  function IssueCommentText(issue: Issue): string {
    FormatCommentText(
      Get(issue, "type", ""), Get(issue, "severity", "Medium"), Get(issue, "description", ""),
      Get(issue, "section", ""), Get(issue, "adgm_reference", ""), Get(issue, "suggestion", ""))
  }

  /** No text field of the issue holds a line break. */
  predicate SingleLineFields(issue: Issue) {
    forall k :: k in issue && issue[k].Text? ==> NoChar(issue[k].text, '\n')
  }

  /** The comment of an issue dictionary reads back its fields; a missing
      severity reads "Medium", a missing type or description reads "", and
      a missing section, reference or suggestion leaves its line out. */
  lemma IssueCommentDefaults(issue: Issue)
    requires SingleLineFields(issue)
    ensures var text := IssueCommentText(issue);
      CommentField(text, IssueLabel) == Some(Get(issue, "type", "")) &&
      CommentField(text, SeverityLabel) == Some(Get(issue, "severity", "Medium")) &&
      CommentField(text, DescriptionLabel) == Some(Get(issue, "description", ""))
    ensures "severity" !in issue ==> CommentField(IssueCommentText(issue), SeverityLabel) == Some("Medium")
    ensures "type" !in issue ==> CommentField(IssueCommentText(issue), IssueLabel) == Some("")
    ensures "section" !in issue ==> CommentField(IssueCommentText(issue), SectionLabel) == None
    ensures "adgm_reference" !in issue ==> CommentField(IssueCommentText(issue), ReferenceLabel) == None
    ensures "suggestion" !in issue ==> CommentField(IssueCommentText(issue), SuggestionLabel) == None
  {
    assert NoChar("Medium", '\n');
    CommentTextRoundTrip(
      Get(issue, "type", ""), Get(issue, "severity", "Medium"), Get(issue, "description", ""),
      Get(issue, "section", ""), Get(issue, "adgm_reference", ""), Get(issue, "suggestion", ""));
  }

  /** The comment made for an issue of the compliance checker shows that
      issue's type, severity and description, and its section, reference
      and suggestion when they are non-empty. */
  lemma CheckerIssueComment(i: ComplianceChecker.ComplianceIssue)
    requires NoChar(i.issueType, '\n') && NoChar(i.severity, '\n') && NoChar(i.description, '\n')
    requires NoChar(i.section, '\n') && NoChar(i.adgmReference, '\n') && NoChar(i.suggestion, '\n')
    ensures var text := IssueCommentText(IssueDict(i));
      CommentField(text, IssueLabel) == Some(i.issueType) &&
      CommentField(text, SeverityLabel) == Some(i.severity) &&
      CommentField(text, DescriptionLabel) == Some(i.description) &&
      CommentField(text, SectionLabel) == (if i.section != "" then Some(i.section) else None) &&
      CommentField(text, ReferenceLabel) == (if i.adgmReference != "" then Some(i.adgmReference) else None) &&
      CommentField(text, SuggestionLabel) == (if i.suggestion != "" then Some(i.suggestion) else None)
  {
    IssueDictRoundTrip(i);
    CommentTextRoundTrip(i.issueType, i.severity, i.description, i.section, i.adgmReference, i.suggestion);
  }

  // ---------------------------------------------------------------------
  // Keywords
  // ---------------------------------------------------------------------

  const JurisdictionKeywords: seq<string> := ["jurisdiction", "courts", "legal"]
  const ClauseKeywords: seq<string> := ["clause", "section", "article"]
  const DirectorKeywords: seq<string> := ["director", "board", "management"]
  const ShareholderKeywords: seq<string> := ["shareholder", "member", "ownership"]

  /** The triples whose trigger word was found, in trigger order. */
  function KeywordTriples(jurisdiction: bool, clause: bool, director: bool, shareholder: bool): seq<string> {
    (if jurisdiction then JurisdictionKeywords else [])
    + (if clause then ClauseKeywords else [])
    + (if director then DirectorKeywords else [])
    + (if shareholder then ShareholderKeywords else [])
  }

  /** The keywords `_extract_keywords_from_issue` draws from a description:
      one fixed triple per trigger word the lowered description contains. */
  function Keywords(description: string): seq<string> {
    var lowered := Lower(description);
    KeywordTriples(Contains(lowered, "jurisdiction"), Contains(lowered, "clause"),
                   Contains(lowered, "director"), Contains(lowered, "shareholder"))
  }

  /** `_extract_keywords_from_issue`, extending the list triple by triple. */
  method ExtractKeywordsFromIssue(issue: Issue) returns (keywords: seq<string>)
    ensures keywords == Keywords(Get(issue, "description", ""))
  {
    var lowered := Lower(Get(issue, "description", ""));
    keywords := [];
    if Contains(lowered, "jurisdiction") {
      keywords := keywords + JurisdictionKeywords;
    }
    if Contains(lowered, "clause") {
      keywords := keywords + ClauseKeywords;
    }
    if Contains(lowered, "director") {
      keywords := keywords + DirectorKeywords;
    }
    if Contains(lowered, "shareholder") {
      keywords := keywords + ShareholderKeywords;
    }
  }

  /** The triples come whole, at most four, and nothing outside the four
      triples is taken. */
  lemma KeywordTriplesShape(jurisdiction: bool, clause: bool, director: bool, shareholder: bool)
    ensures |KeywordTriples(jurisdiction, clause, director, shareholder)| in {0, 3, 6, 9, 12}
    ensures forall k :: k in KeywordTriples(jurisdiction, clause, director, shareholder) ==>
      k in JurisdictionKeywords || k in ClauseKeywords || k in DirectorKeywords || k in ShareholderKeywords
  {
    var a := if jurisdiction then JurisdictionKeywords else [];
    var b := if clause then ClauseKeywords else [];
    var c := if director then DirectorKeywords else [];
    var d := if shareholder then ShareholderKeywords else [];
    assert forall k :: k in a + b + c + d <==> k in a || k in b || k in c || k in d;
  }

  /** A word is among the triples exactly when a taken triple holds it. */
  lemma InKeywordTriples(k: string, jurisdiction: bool, clause: bool, director: bool, shareholder: bool)
    ensures k in KeywordTriples(jurisdiction, clause, director, shareholder) <==>
      (jurisdiction && k in JurisdictionKeywords) || (clause && k in ClauseKeywords) ||
      (director && k in DirectorKeywords) || (shareholder && k in ShareholderKeywords)
  {
    var a := if jurisdiction then JurisdictionKeywords else [];
    var b := if clause then ClauseKeywords else [];
    var c := if director then DirectorKeywords else [];
    var d := if shareholder then ShareholderKeywords else [];
    assert KeywordTriples(jurisdiction, clause, director, shareholder) == a + b + c + d;
    assert k in a + b + c + d <==> k in a || k in b || k in c || k in d;
  }

  /** Each trigger word is among the triples exactly when its own triple was
      taken: no other triple contains it. */
  lemma KeywordTriplesTriggers(jurisdiction: bool, clause: bool, director: bool, shareholder: bool)
    ensures var kw := KeywordTriples(jurisdiction, clause, director, shareholder);
      ("jurisdiction" in kw <==> jurisdiction) && ("clause" in kw <==> clause) &&
      ("director" in kw <==> director) && ("shareholder" in kw <==> shareholder)
  {
    InKeywordTriples("jurisdiction", jurisdiction, clause, director, shareholder);
    assert "jurisdiction" !in ClauseKeywords + DirectorKeywords + ShareholderKeywords;
    InKeywordTriples("clause", jurisdiction, clause, director, shareholder);
    assert "clause" !in JurisdictionKeywords + DirectorKeywords + ShareholderKeywords by {
      assert "clause"[1] != "courts"[1] && "clause"[0] != "member"[0];
    }
    InKeywordTriples("director", jurisdiction, clause, director, shareholder);
    assert "director" !in JurisdictionKeywords + ClauseKeywords + ShareholderKeywords;
    InKeywordTriples("shareholder", jurisdiction, clause, director, shareholder);
    assert "shareholder" !in JurisdictionKeywords + ClauseKeywords + DirectorKeywords;
  }

  /** The keywords come in whole triples, at most four; each trigger word is
      a keyword exactly when the lowered description contains it, and every
      keyword belongs to one of the four triples. */
  lemma KeywordsSpec(description: string)
    ensures var kw := Keywords(description);
      |kw| in {0, 3, 6, 9, 12}
    ensures var kw, lowered := Keywords(description), Lower(description);
      ("jurisdiction" in kw <==> Contains(lowered, "jurisdiction")) &&
      ("clause" in kw <==> Contains(lowered, "clause")) &&
      ("director" in kw <==> Contains(lowered, "director")) &&
      ("shareholder" in kw <==> Contains(lowered, "shareholder"))
    ensures forall k :: k in Keywords(description) ==>
      k in JurisdictionKeywords || k in ClauseKeywords || k in DirectorKeywords || k in ShareholderKeywords
  {
    var lowered := Lower(description);
    var j, c, d, s := Contains(lowered, "jurisdiction"), Contains(lowered, "clause"),
                      Contains(lowered, "director"), Contains(lowered, "shareholder");
    KeywordTriplesShape(j, c, d, s);
    KeywordTriplesTriggers(j, c, d, s);
  }

  // ---------------------------------------------------------------------
  // The paragraph a comment is attached to
  // ---------------------------------------------------------------------

  /** What `_find_target_paragraph` looks for in a paragraph, pass by pass. */
  datatype Criterion =
    | Mentions(text: string)
    | MentionsAny(keywords: seq<string>)
    | NotBlank

  /** Case-insensitive containment, as the search compares lowered texts. */
  predicate Meets(paragraph: string, c: Criterion) {
    match c
    case Mentions(t) => Contains(Lower(paragraph), Lower(t))
    case MentionsAny(ks) => exists k :: 0 <= k < |ks| && Contains(Lower(paragraph), Lower(ks[k]))
    case NotBlank => Strip(paragraph) != ""
  }

  /** The index of the first paragraph that meets `c`. */
  function FirstMeeting(paragraphs: seq<string>, c: Criterion): Option<nat> {
    if paragraphs == [] then None
    else if Meets(paragraphs[0], c) then Some(0)
    else match FirstMeeting(paragraphs[1..], c)
      case None => None
      case Some(i) => Some(i + 1)
  }

  predicate Satisfiable(paragraphs: seq<string>, c: Criterion) {
    exists j :: 0 <= j < |paragraphs| && Meets(paragraphs[j], c)
  }

  predicate IsFirstMeeting(paragraphs: seq<string>, c: Criterion, i: nat) {
    i < |paragraphs| && Meets(paragraphs[i], c) && forall j :: 0 <= j < i ==> !Meets(paragraphs[j], c)
  }

  /** The first-match search finds the first paragraph meeting `c`, and
      finds none exactly when no paragraph does. */
  lemma {:induction false} FirstMeetingSpec(paragraphs: seq<string>, c: Criterion)
    ensures FirstMeeting(paragraphs, c).Some? ==> IsFirstMeeting(paragraphs, c, FirstMeeting(paragraphs, c).value)
    ensures FirstMeeting(paragraphs, c).None? <==> !Satisfiable(paragraphs, c)
  {
    if paragraphs != [] && !Meets(paragraphs[0], c) {
      FirstMeetingSpec(paragraphs[1..], c);
      if Satisfiable(paragraphs, c) {
        var j :| 0 <= j < |paragraphs| && Meets(paragraphs[j], c);
        assert Meets(paragraphs[1..][j - 1], c);
      }
      if Satisfiable(paragraphs[1..], c) {
        var j :| 0 <= j < |paragraphs[1..]| && Meets(paragraphs[1..][j], c);
        assert Meets(paragraphs[j + 1], c);
      }
      match FirstMeeting(paragraphs[1..], c)
      case None =>
      case Some(i) =>
        forall j | 0 <= j < i + 1
          ensures !Meets(paragraphs[j], c)
        {
          if j > 0 {
            assert paragraphs[j] == paragraphs[1..][j - 1];
          }
        }
    }
  }

  /** `_find_target_paragraph` over the paragraph texts, as an index: the
      first mentioning the section, else the first mentioning the clause,
      else the first mentioning a keyword, else the first that is not
      blank. An empty section or clause is not searched for. */
  function TargetParagraph(paragraphs: seq<string>, issue: Issue): Option<nat> {
    var section := Get(issue, "section", "");
    var clause := Get(issue, "clause", "");
    var bySection := if section != "" then FirstMeeting(paragraphs, Mentions(section)) else None;
    var byClause := if clause != "" then FirstMeeting(paragraphs, Mentions(clause)) else None;
    var byKeyword := FirstMeeting(paragraphs, MentionsAny(Keywords(Get(issue, "description", ""))));
    if bySection.Some? then bySection
    else if byClause.Some? then byClause
    else if byKeyword.Some? then byKeyword
    else FirstMeeting(paragraphs, NotBlank)
  }

  /** The priority order of the search: each pass is reached only when the
      passes before it find nothing, and then answers with its first
      match. */
  lemma TargetParagraphPriority(paragraphs: seq<string>, issue: Issue)
    ensures var section, r := Get(issue, "section", ""), TargetParagraph(paragraphs, issue);
      section != "" && Satisfiable(paragraphs, Mentions(section)) ==>
        r.Some? && IsFirstMeeting(paragraphs, Mentions(section), r.value)
    ensures var section, clause, r := Get(issue, "section", ""), Get(issue, "clause", ""), TargetParagraph(paragraphs, issue);
      (section == "" || !Satisfiable(paragraphs, Mentions(section))) &&
      clause != "" && Satisfiable(paragraphs, Mentions(clause)) ==>
        r.Some? && IsFirstMeeting(paragraphs, Mentions(clause), r.value)
    ensures var section, clause, r := Get(issue, "section", ""), Get(issue, "clause", ""), TargetParagraph(paragraphs, issue);
      var keywords := MentionsAny(Keywords(Get(issue, "description", "")));
      (section == "" || !Satisfiable(paragraphs, Mentions(section))) &&
      (clause == "" || !Satisfiable(paragraphs, Mentions(clause))) &&
      Satisfiable(paragraphs, keywords) ==>
        r.Some? && IsFirstMeeting(paragraphs, keywords, r.value)
    ensures var section, clause, r := Get(issue, "section", ""), Get(issue, "clause", ""), TargetParagraph(paragraphs, issue);
      var keywords := MentionsAny(Keywords(Get(issue, "description", "")));
      (section == "" || !Satisfiable(paragraphs, Mentions(section))) &&
      (clause == "" || !Satisfiable(paragraphs, Mentions(clause))) &&
      !Satisfiable(paragraphs, keywords) ==>
        r == FirstMeeting(paragraphs, NotBlank)
  {
    FirstMeetingSpec(paragraphs, Mentions(Get(issue, "section", "")));
    FirstMeetingSpec(paragraphs, Mentions(Get(issue, "clause", "")));
    FirstMeetingSpec(paragraphs, MentionsAny(Keywords(Get(issue, "description", ""))));
  }

  /** Some paragraph is chosen whenever one is not blank, and when none is
      chosen every paragraph is blank. */
  lemma TargetParagraphFound(paragraphs: seq<string>, issue: Issue)
    ensures var r := TargetParagraph(paragraphs, issue);
      (r.Some? ==> r.value < |paragraphs|) &&
      (Satisfiable(paragraphs, NotBlank) ==> r.Some?) &&
      (r.None? ==> forall j :: 0 <= j < |paragraphs| ==> Strip(paragraphs[j]) == "")
  {
    FirstMeetingSpec(paragraphs, Mentions(Get(issue, "section", "")));
    FirstMeetingSpec(paragraphs, Mentions(Get(issue, "clause", "")));
    FirstMeetingSpec(paragraphs, MentionsAny(Keywords(Get(issue, "description", ""))));
    FirstMeetingSpec(paragraphs, NotBlank);
    if TargetParagraph(paragraphs, issue).None? {
      forall j | 0 <= j < |paragraphs|
        ensures Strip(paragraphs[j]) == ""
      {
        assert !Meets(paragraphs[j], NotBlank);
      }
    }
  }

  // ---------------------------------------------------------------------
  // The summary comment
  // ---------------------------------------------------------------------

  /** The entries of the compliance result the summary reads. A missing key
      is `None`. The score is taken as the text Python prints for it. */
  datatype ComplianceResult = ComplianceResult(
    complianceScore: Option<string>,
    totalIssues: Option<int>,
    isCompliant: Option<bool>,
    highSeverityIssues: Option<int>,
    mediumSeverityIssues: Option<int>,
    lowSeverityIssues: Option<int>)

  const SummaryHeading: string := "DOCUMENT COMPLIANCE SUMMARY"
  const SummaryRule: string := "=============================="
  const CompliantLine: string := "\U{2705} COMPLIANCE STATUS: COMPLIANT"
  const NonCompliantLine: string := "\U{274C} COMPLIANCE STATUS: NON-COMPLIANT"
  const ScoreLabel: string := "COMPLIANCE SCORE: "
  const TotalLabel: string := "TOTAL ISSUES FOUND: "
  const HighLabel: string := "\U{1F534} HIGH SEVERITY: "
  const MediumLabel: string := "\U{1F7E1} MEDIUM SEVERITY: "
  const LowLabel: string := "\U{1F7E2} LOW SEVERITY: "
  // One sentence, written as two joined literals only to keep the
  // verifier's reasoning about its characters cheap.
  const SummaryClosing: string := "Review all comments below " + "for detailed analysis and suggestions."

  /** The `summary_parts` list `_format_summary_comment` builds, with the
      score defaulting to 0, the counts to 0 and compliance to False. */
  function SummaryLines(result: ComplianceResult): seq<string> {
    SummaryHead(result)
    + SeverityLines(result.highSeverityIssues.GetOr(0), result.mediumSeverityIssues.GetOr(0),
                    result.lowSeverityIssues.GetOr(0))
    + ["", SummaryClosing]
  }

  /** The heading, status, score and total lines. */
  function SummaryHead(result: ComplianceResult): seq<string> {
    [SummaryHeading, SummaryRule, "",
     if result.isCompliant.GetOr(false) then CompliantLine else NonCompliantLine,
     "", ScoreLabel + result.complianceScore.GetOr("0") + "%",
     TotalLabel + IntToString(result.totalIssues.GetOr(0)), ""]
  }

  /** One line per severity with a positive count. */
  function SeverityLines(high: int, medium: int, low: int): seq<string> {
    SeverityLine(HighLabel, high) + SeverityLine(MediumLabel, medium) + SeverityLine(LowLabel, low)
  }

  /** The line for one severity, present only for a positive count. */
  function SeverityLine(tag: string, count: int): seq<string> {
    if count > 0 then [tag + IntToString(count)] else []
  }

  function SummaryText(result: ComplianceResult): string {
    JoinWith("\n", SummaryLines(result))
  }

  /** `_format_summary_comment`, appending the lines one by one and joining
      them with line breaks. */
  method FormatSummaryComment(result: ComplianceResult) returns (text: string)
    ensures text == SummaryText(result)
  {
    var parts := SummaryHeadParts(result);
    ghost var head := parts;
    var high := result.highSeverityIssues.GetOr(0);
    var medium := result.mediumSeverityIssues.GetOr(0);
    var low := result.lowSeverityIssues.GetOr(0);
    ghost var severity := SeverityLine(HighLabel, high);
    parts := AppendSeverityLine(parts, HighLabel, high);
    assert parts == head + severity;
    severity := severity + SeverityLine(MediumLabel, medium);
    parts := AppendSeverityLine(parts, MediumLabel, medium);
    assert parts == head + severity;
    severity := severity + SeverityLine(LowLabel, low);
    parts := AppendSeverityLine(parts, LowLabel, low);
    assert parts == head + severity;
    parts := parts + [""];
    parts := parts + [SummaryClosing];
    assert parts == head + severity + ["", SummaryClosing];
    text := JoinWith("\n", parts);
  }

  /** The heading, status, score and total lines, appended one by one. */
  method SummaryHeadParts(result: ComplianceResult) returns (parts: seq<string>)
    ensures parts == SummaryHead(result)
  {
    var complianceScore := result.complianceScore.GetOr("0");
    var totalIssues := result.totalIssues.GetOr(0);
    var isCompliant := result.isCompliant.GetOr(false);
    parts := [];
    parts := parts + [SummaryHeading];
    parts := parts + [SummaryRule];
    parts := parts + [""];
    if isCompliant {
      parts := parts + [CompliantLine];
    } else {
      parts := parts + [NonCompliantLine];
    }
    parts := parts + [""];
    parts := parts + [ScoreLabel + complianceScore + "%"];
    parts := parts + [TotalLabel + IntToString(totalIssues)];
    parts := parts + [""];
  }

  /** Appends a severity's line when its count is positive. */
  method AppendSeverityLine(parts: seq<string>, tag: string, count: int) returns (extended: seq<string>)
    ensures extended == parts + SeverityLine(tag, count)
  {
    extended := parts;
    if count > 0 {
      extended := extended + [tag + IntToString(count)];
    }
  }

  /** The summary lines, each told apart by its first character. */
  lemma SummaryLinesContent(result: ComplianceResult)
    ensures var lines := SummaryLines(result);
      var high := result.highSeverityIssues.GetOr(0);
      var medium := result.mediumSeverityIssues.GetOr(0);
      var low := result.lowSeverityIssues.GetOr(0);
      forall x :: x in lines <==>
        x == SummaryHeading || x == SummaryRule || x == "" || x == SummaryClosing ||
        (result.isCompliant.GetOr(false) && x == CompliantLine) ||
        (!result.isCompliant.GetOr(false) && x == NonCompliantLine) ||
        x == ScoreLabel + result.complianceScore.GetOr("0") + "%" ||
        x == TotalLabel + IntToString(result.totalIssues.GetOr(0)) ||
        (high > 0 && x == HighLabel + IntToString(high)) ||
        (medium > 0 && x == MediumLabel + IntToString(medium)) ||
        (low > 0 && x == LowLabel + IntToString(low))
  {
  }

  /** Every summary line that starts with one of the labels is that label's
      own line, and a severity line is there only for a positive count. */
  lemma SummaryLabelsOwnLines(result: ComplianceResult, x: string)
    requires x in SummaryLines(result)
    ensures StartsWith(x, ScoreLabel) ==> x == ScoreLabel + (result.complianceScore.GetOr("0") + "%")
    ensures StartsWith(x, TotalLabel) ==> x == TotalLabel + IntToString(result.totalIssues.GetOr(0))
    ensures var high := result.highSeverityIssues.GetOr(0);
      StartsWith(x, HighLabel) ==> high > 0 && x == HighLabel + IntToString(high)
    ensures var medium := result.mediumSeverityIssues.GetOr(0);
      StartsWith(x, MediumLabel) ==> medium > 0 && x == MediumLabel + IntToString(medium)
    ensures var low := result.lowSeverityIssues.GetOr(0);
      StartsWith(x, LowLabel) ==> low > 0 && x == LowLabel + IntToString(low)
    ensures x == CompliantLine ==> result.isCompliant.GetOr(false)
    ensures x == NonCompliantLine ==> !result.isCompliant.GetOr(false)
  {
    SummaryLinesContent(result);
    var score := result.complianceScore.GetOr("0");
    assert ScoreLabel + score + "%" == ScoreLabel + (score + "%");
    assert SummaryHeading[0] == 'D' && SummaryRule[0] == '=' && SummaryClosing[0] == 'R';
    assert CompliantLine[0] == '\U{2705}' && NonCompliantLine[0] == '\U{274C}';
    assert ScoreLabel[0] == 'C' && TotalLabel[0] == 'T';
    assert HighLabel[0] == '\U{1F534}' && MediumLabel[0] == '\U{1F7E1}' && LowLabel[0] == '\U{1F7E2}';
  }

  /** What a reader finds after `tag` in the summary lines. */
  lemma SummaryLinesFields(result: ComplianceResult)
    ensures var lines := SummaryLines(result);
      (CompliantLine in lines <==> result.isCompliant.GetOr(false)) &&
      (NonCompliantLine in lines <==> !result.isCompliant.GetOr(false)) &&
      LabelValue(lines, ScoreLabel) == Some(result.complianceScore.GetOr("0") + "%") &&
      LabelValue(lines, TotalLabel) == Some(IntToString(result.totalIssues.GetOr(0)))
    ensures var lines, high := SummaryLines(result), result.highSeverityIssues.GetOr(0);
      LabelValue(lines, HighLabel) == (if high > 0 then Some(IntToString(high)) else None)
    ensures var lines, medium := SummaryLines(result), result.mediumSeverityIssues.GetOr(0);
      LabelValue(lines, MediumLabel) == (if medium > 0 then Some(IntToString(medium)) else None)
    ensures var lines, low := SummaryLines(result), result.lowSeverityIssues.GetOr(0);
      LabelValue(lines, LowLabel) == (if low > 0 then Some(IntToString(low)) else None)
  {
    var lines := SummaryLines(result);
    var score := result.complianceScore.GetOr("0");
    var high := result.highSeverityIssues.GetOr(0);
    var medium := result.mediumSeverityIssues.GetOr(0);
    var low := result.lowSeverityIssues.GetOr(0);
    SummaryLinesContent(result);
    forall x | x in lines
      ensures StartsWith(x, ScoreLabel) ==> x == ScoreLabel + (score + "%")
      ensures StartsWith(x, TotalLabel) ==> x == TotalLabel + IntToString(result.totalIssues.GetOr(0))
      ensures StartsWith(x, HighLabel) ==> high > 0 && x == HighLabel + IntToString(high)
      ensures StartsWith(x, MediumLabel) ==> medium > 0 && x == MediumLabel + IntToString(medium)
      ensures StartsWith(x, LowLabel) ==> low > 0 && x == LowLabel + IntToString(low)
      ensures x == CompliantLine ==> result.isCompliant.GetOr(false)
      ensures x == NonCompliantLine ==> !result.isCompliant.GetOr(false)
    {
      SummaryLabelsOwnLines(result, x);
    }
    assert lines[5] == ScoreLabel + (score + "%");
    StartsWithSelf(HighLabel + IntToString(high));
    StartsWithSelf(MediumLabel + IntToString(medium));
    StartsWithSelf(LowLabel + IntToString(low));
    PrefixOfConcat(HighLabel, IntToString(high));
    PrefixOfConcat(MediumLabel, IntToString(medium));
    PrefixOfConcat(LowLabel, IntToString(low));
    LabelValueOf(lines, ScoreLabel, score + "%");
    LabelValueOf(lines, TotalLabel, IntToString(result.totalIssues.GetOr(0)));
    OptionalFieldOf(lines, HighLabel, if high > 0 then IntToString(high) else "");
    OptionalFieldOf(lines, MediumLabel, if medium > 0 then IntToString(medium) else "");
    OptionalFieldOf(lines, LowLabel, if low > 0 then IntToString(low) else "");
  }

  lemma IntToStringSingleLine(i: int)
    ensures NoChar(IntToString(i), '\n')
  {
    if i < 0 {
      assert IntToString(i) == "-" + NatToString(-i);
    }
  }

  /** No fixed summary line holds a line break. */
  lemma SummaryFixedLinesSingleLine()
    ensures NoChar(SummaryHeading, '\n') && NoChar(SummaryRule, '\n') && NoChar(SummaryClosing, '\n')
    ensures NoChar(CompliantLine, '\n') && NoChar(NonCompliantLine, '\n')
  {
    NoCharConcat("Review all comments below ", "for detailed analysis and suggestions.", '\n');
  }

  /** No summary label holds a line break. */
  lemma SummaryLabelsSingleLine()
    ensures NoChar(ScoreLabel, '\n') && NoChar(TotalLabel, '\n')
    ensures NoChar(HighLabel, '\n') && NoChar(MediumLabel, '\n') && NoChar(LowLabel, '\n')
  {
  }

  /** The heading, status, score and total lines hold no line break, when
      the printed score holds none. */
  lemma SummaryHeadSingleLine(result: ComplianceResult)
    requires NoChar(result.complianceScore.GetOr("0"), '\n')
    ensures forall x :: x in SummaryHead(result) ==> NoChar(x, '\n')
  {
    var score := result.complianceScore.GetOr("0");
    SummaryFixedLinesSingleLine();
    SummaryLabelsSingleLine();
    IntToStringSingleLine(result.totalIssues.GetOr(0));
    NoCharConcat(score, "%", '\n');
    NoCharConcat(ScoreLabel, score + "%", '\n');
    assert ScoreLabel + score + "%" == ScoreLabel + (score + "%");
    NoCharConcat(TotalLabel, IntToString(result.totalIssues.GetOr(0)), '\n');
  }

  /** The severity lines hold no line break. */
  lemma SeverityLinesSingleLine(high: int, medium: int, low: int)
    ensures forall x :: x in SeverityLines(high, medium, low) ==> NoChar(x, '\n')
  {
    SummaryLabelsSingleLine();
    IntToStringSingleLine(high);
    IntToStringSingleLine(medium);
    IntToStringSingleLine(low);
    NoCharConcat(HighLabel, IntToString(high), '\n');
    NoCharConcat(MediumLabel, IntToString(medium), '\n');
    NoCharConcat(LowLabel, IntToString(low), '\n');
  }

  /** Splitting the summary text at line breaks gives its lines back, when
      the printed score holds no line break. */
  lemma SummaryTextSplits(result: ComplianceResult)
    requires NoChar(result.complianceScore.GetOr("0"), '\n')
    ensures SplitOn(SummaryText(result), '\n') == SummaryLines(result)
  {
    var head := SummaryHead(result);
    var severity := SeverityLines(result.highSeverityIssues.GetOr(0), result.mediumSeverityIssues.GetOr(0),
                                  result.lowSeverityIssues.GetOr(0));
    var lines := SummaryLines(result);
    assert lines == head + severity + ["", SummaryClosing];
    SummaryHeadSingleLine(result);
    SummaryFixedLinesSingleLine();
    SeverityLinesSingleLine(result.highSeverityIssues.GetOr(0), result.mediumSeverityIssues.GetOr(0),
                            result.lowSeverityIssues.GetOr(0));
    forall k | 0 <= k < |lines|
      ensures NoChar(lines[k], '\n')
    {
      if k < |head| {
        assert lines[k] == head[k];
      } else if k < |head| + |severity| {
        assert lines[k] == severity[k - |head|];
      }
    }
    SplitJoinRoundTrip(lines, '\n');
  }

  /** The summary text shows the status line for the compliance flag and
      not the other, the score with a percent sign, the total, and a
      severity line exactly for each positive count. */
  lemma SummaryTextFields(result: ComplianceResult)
    requires NoChar(result.complianceScore.GetOr("0"), '\n')
    ensures var lines := SplitOn(SummaryText(result), '\n');
      (CompliantLine in lines <==> result.isCompliant.GetOr(false)) &&
      (NonCompliantLine in lines <==> !result.isCompliant.GetOr(false))
    ensures var text := SummaryText(result);
      CommentField(text, ScoreLabel) == Some(result.complianceScore.GetOr("0") + "%") &&
      CommentField(text, TotalLabel) == Some(IntToString(result.totalIssues.GetOr(0)))
    ensures var text, high := SummaryText(result), result.highSeverityIssues.GetOr(0);
      CommentField(text, HighLabel) == (if high > 0 then Some(IntToString(high)) else None)
    ensures var text, medium := SummaryText(result), result.mediumSeverityIssues.GetOr(0);
      CommentField(text, MediumLabel) == (if medium > 0 then Some(IntToString(medium)) else None)
    ensures var text, low := SummaryText(result), result.lowSeverityIssues.GetOr(0);
      CommentField(text, LowLabel) == (if low > 0 then Some(IntToString(low)) else None)
  {
    SummaryTextSplits(result);
    SummaryLinesFields(result);
  }

  /** A result with none of the keys reads as a non-compliant document
      scoring 0 with no issues and no severity lines. */
  lemma SummaryDefaults(result: ComplianceResult)
    requires result.complianceScore.None? && result.totalIssues.None? && result.isCompliant.None?
    requires result.highSeverityIssues.None? && result.mediumSeverityIssues.None? && result.lowSeverityIssues.None?
    ensures var text := SummaryText(result);
      NonCompliantLine in SplitOn(text, '\n') && CompliantLine !in SplitOn(text, '\n') &&
      CommentField(text, ScoreLabel) == Some("0%") &&
      CommentField(text, TotalLabel) == Some("0") &&
      CommentField(text, HighLabel) == None &&
      CommentField(text, MediumLabel) == None &&
      CommentField(text, LowLabel) == None
  {
    assert result.complianceScore.GetOr("0") == "0" && result.totalIssues.GetOr(0) == 0;
    assert !result.isCompliant.GetOr(false);
    assert result.highSeverityIssues.GetOr(0) == 0 && result.mediumSeverityIssues.GetOr(0) == 0;
    assert result.lowSeverityIssues.GetOr(0) == 0;
    assert NoChar("0", '\n');
    assert IntToString(0) == "0";
    assert "0" + "%" == "0%";
    SummaryTextFields(result);
  }
}
