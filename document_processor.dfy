/** The document classifier of src/document_processor.py: the file-type test,
    the keyword chain that labels a document, and the grouping of a
    document's paragraphs into a title, sections and loose paragraphs. The
    paragraphs are given as (text, style name) pairs; reading them out of a
    .docx file is not part of this model. */
module DocumentProcessor {
  import opened AsciiText

  /** A paragraph as python-docx exposes it. */
  datatype Paragraph = Paragraph(text: string, styleName: string)

  /** One entry of `structure['sections']`. */
  datatype Section = Section(title: string, content: seq<string>)

  /** The dictionary `extract_structure` returns, without its `tables`
      entry (reading tables out of the file is not part of this model). */
  datatype Structure = Structure(
    title: string,
    sections: seq<Section>,
    paragraphs: seq<string>)

  const SupportedExtensions: seq<string> := [".docx"]

  // ---------------------------------------------------------------------
  // can_process

  /** Where the last path component starts (one past the last '/'). */
  function BaseNameStart(p: string): (b: nat)
    ensures b <= |p|
    ensures forall k :: b <= k < |p| ==> p[k] != '/'
    ensures b == 0 || p[b - 1] == '/'
  {
    if p == [] then 0
    else if p[|p| - 1] == '/' then |p|
    else BaseNameStart(p[..|p| - 1])
  }

  /** Index of the last '.', if any. */
  function LastDot(p: string): (d: Option<nat>)
    ensures d.Some? ==> d.value < |p| && p[d.value] == '.'
    ensures d.Some? ==> forall k :: d.value < k < |p| ==> p[k] != '.'
    ensures d.None? ==> forall k :: 0 <= k < |p| ==> p[k] != '.'
  {
    if p == [] then None
    else if p[|p| - 1] == '.' then Some(|p| - 1)
    else LastDot(p[..|p| - 1])
  }

  /** The second half of `os.path.splitext(p)` (POSIX): from the last dot of
      the last component, unless everything before that dot in the
      component is dots. */
  function SplitExtension(p: string): string {
    var b := BaseNameStart(p);
    match LastDot(p)
    case None => ""
    case Some(d) =>
      if b <= d && exists k :: b <= k < d && p[k] != '.' then p[d..] else ""
  }

  /** `can_process`: the lower-cased extension is a supported one. */
  function CanProcess(filePath: string): bool {
    Lower(SplitExtension(filePath)) in SupportedExtensions
  }

  /** The path ends in ".docx" in any case. */
  predicate DocxSuffix(p: string) {
    |p| >= 5 && Lower(p[|p| - 5..]) == ".docx"
  }

  lemma ExtensionAt(p: string, d: nat)
    requires LastDot(p) == Some(d)
    requires exists k :: BaseNameStart(p) <= k < d && p[k] != '.'
    ensures SplitExtension(p) == p[d..]
  {
  }

  lemma LastDotAt(p: string, d: nat)
    requires d < |p| && p[d] == '.'
    requires forall k :: d < k < |p| ==> p[k] != '.'
    ensures LastDot(p) == Some(d)
  {
  }

  /** In a path ending in ".docx" in any case, the last dot is that of the suffix. */
  lemma DocxSuffixDots(p: string)
    requires DocxSuffix(p)
    ensures p[|p| - 5] == '.'
    ensures forall k :: |p| - 5 < k < |p| ==> p[k] != '.'
  {
    var d := |p| - 5;
    var lp := Lower(p[d..]);
    assert lp[0] == '.' && lp[1] == 'd' && lp[2] == 'o' && lp[3] == 'c' && lp[4] == 'x';
    forall k | d < k < |p|
      ensures p[k] != '.'
    {
      assert p[k] == p[d..][k - d];
      assert lp[k - d] != '.';
    }
  }

  /** A path is accepted only when it ends in ".docx" in any case and its
      last component has something other than dots before that suffix. */
  lemma CanProcessOnlyDocx(p: string)
    requires CanProcess(p)
    ensures DocxSuffix(p)
    ensures exists k :: BaseNameStart(p) <= k < |p| - 5 && p[k] != '.'
  {
    var e := SplitExtension(p);
    assert |e| == 5;
    var d := LastDot(p).value;
    assert e == p[d..] && d == |p| - 5;
    assert Lower(p[|p| - 5..]) == ".docx";
  }

  /** Conversely, every such path is accepted. */
  lemma CanProcessDocx(p: string)
    requires DocxSuffix(p)
    requires exists k :: BaseNameStart(p) <= k < |p| - 5 && p[k] != '.'
    ensures CanProcess(p)
  {
    var d := |p| - 5;
    DocxSuffixDots(p);
    LastDotAt(p, d);
    ExtensionAt(p, d);
  }

  lemma CanProcessExamples()
    ensures CanProcess("contract.DOCX")
    ensures !CanProcess("document.pdf")
    ensures !CanProcess("document")
    ensures !CanProcess(".docx")
  {
    var p := "contract.DOCX";
    assert Lower(p[8..]) == ".docx";
    assert p[0] != '.';
    CanProcessDocx(p);
    if CanProcess("document.pdf") {
      CanProcessOnlyDocx("document.pdf");
      DocxSuffixDots("document.pdf");
    }
    if CanProcess("document") {
      CanProcessOnlyDocx("document");
      DocxSuffixDots("document");
    }
    if CanProcess(".docx") {
      CanProcessOnlyDocx(".docx");
    }
  }

  // ---------------------------------------------------------------------
  // identify_document_type

  const DocumentTypeLabels: seq<string> := [
    "Articles of Association", "Memorandum of Association", "Board Resolution",
    "Shareholder Resolution", "Incorporation Application", "UBO Declaration",
    "Register of Members and Directors", "Change of Registered Address Notice",
    "Regulatory Filing", "Employment Contract", "Commercial Agreement",
    "Compliance Policy", "Unknown Document Type"]

  /** `any(keyword in s for keyword in keywords)` */
  predicate ContainsAny(s: string, keywords: seq<string>) {
    |keywords| > 0 && (Contains(s, keywords[0]) || ContainsAny(s, keywords[1..]))
  }

  lemma {:induction false} ContainsAnyAppend(s: string, a: seq<string>, b: seq<string>)
    ensures ContainsAny(s, a + b) <==> ContainsAny(s, a) || ContainsAny(s, b)
  {
    if a != [] {
      assert (a + b)[1..] == a[1..] + b;
      ContainsAnyAppend(s, a[1..], b);
    } else {
      assert a + b == b;
    }
  }

  lemma {:induction false} ContainsAnyIff(s: string, keywords: seq<string>)
    ensures ContainsAny(s, keywords) <==> exists k :: 0 <= k < |keywords| && Contains(s, keywords[k])
  {
    if keywords != [] {
      ContainsAnyIff(s, keywords[1..]);
      if Contains(s, keywords[0]) {
        assert Contains(s, keywords[0]);
      } else if exists k :: 0 <= k < |keywords| && Contains(s, keywords[k]) {
        var k :| 0 <= k < |keywords| && Contains(s, keywords[k]);
        assert keywords[1..][k - 1] == keywords[k];
      }
    }
  }

  const FormationPhrases: seq<string> := ["articles of association", "memorandum of association"]
  const RegulatoryKeywords: seq<string> := ["license", "licensing", "regulatory"]
  const EmploymentKeywords: seq<string> := ["employment", "hr", "contract"]
  const CommercialKeywords: seq<string> := ["commercial", "agreement", "partnership"]
  const ComplianceKeywords: seq<string> := ["compliance", "risk", "policy"]

  /** `identify_document_type`: the label of the first branch whose keywords
      occur in the lower-cased content. The structure is not consulted. */
  function IdentifyDocumentType(content: string, structure: Structure): (kind: string)
    ensures kind in DocumentTypeLabels
  {
    var c := Lower(content);
    if ContainsAny(c, FormationPhrases) then "Articles of Association"
    else if Contains(c, "memorandum") && Contains(c, "association") then
      "Memorandum of Association"
    else if Contains(c, "board resolution") then "Board Resolution"
    else if Contains(c, "shareholder resolution") then "Shareholder Resolution"
    else if Contains(c, "incorporation application") then "Incorporation Application"
    else if Contains(c, "ubo declaration") then "UBO Declaration"
    else if Contains(c, "register of members") then "Register of Members and Directors"
    else if Contains(c, "change of registered address") then "Change of Registered Address Notice"
    else if ContainsAny(c, RegulatoryKeywords) then "Regulatory Filing"
    else if ContainsAny(c, EmploymentKeywords) then "Employment Contract"
    else if ContainsAny(c, CommercialKeywords) then "Commercial Agreement"
    else if ContainsAny(c, ComplianceKeywords) then "Compliance Policy"
    else "Unknown Document Type"
  }

  /** A memorandum is labelled as articles; the memorandum label needs both
      words without either full phrase. */
  lemma MemorandumLabels(content: string, structure: Structure)
    ensures Contains(Lower(content), "memorandum of association") ==>
      IdentifyDocumentType(content, structure) == "Articles of Association"
    ensures IdentifyDocumentType(content, structure) == "Memorandum of Association" <==>
      (Contains(Lower(content), "memorandum") && Contains(Lower(content), "association") &&
       !Contains(Lower(content), "articles of association") &&
       !Contains(Lower(content), "memorandum of association"))
  {
    var c := Lower(content);
    ContainsAnyIff(c, FormationPhrases);
    if Contains(c, FormationPhrases[1]) {
      assert ContainsAny(c, FormationPhrases);
    }
  }

  const SinglePhrases: seq<string> := [
    "board resolution", "shareholder resolution", "incorporation application",
    "ubo declaration", "register of members", "change of registered address"]

  /** Every keyword of the chain except the word pair of its second branch. */
  const ClassifierKeywords: seq<string> :=
    FormationPhrases + SinglePhrases + RegulatoryKeywords + EmploymentKeywords +
    CommercialKeywords + ComplianceKeywords

  /** The unknown label is given exactly to content that has none of the
      chain's keywords and not both "memorandum" and "association". */
  lemma UnknownIffNoKeyword(content: string, structure: Structure)
    ensures IdentifyDocumentType(content, structure) == "Unknown Document Type" <==>
      !ContainsAny(Lower(content), ClassifierKeywords) &&
      !(Contains(Lower(content), "memorandum") && Contains(Lower(content), "association"))
  {
    var c := Lower(content);
    ContainsAnyAppend(c, FormationPhrases + SinglePhrases + RegulatoryKeywords + EmploymentKeywords + CommercialKeywords, ComplianceKeywords);
    ContainsAnyAppend(c, FormationPhrases + SinglePhrases + RegulatoryKeywords + EmploymentKeywords, CommercialKeywords);
    ContainsAnyAppend(c, FormationPhrases + SinglePhrases + RegulatoryKeywords, EmploymentKeywords);
    ContainsAnyAppend(c, FormationPhrases + SinglePhrases, RegulatoryKeywords);
    ContainsAnyAppend(c, FormationPhrases, SinglePhrases);
    ContainsAnyIff(c, FormationPhrases);
    ContainsAnyIff(c, SinglePhrases);
    var formation := Contains(c, "articles of association") || Contains(c, "memorandum of association");
    assert ContainsAny(c, FormationPhrases) == formation by {
      if ContainsAny(c, FormationPhrases) {
        var k :| 0 <= k < |FormationPhrases| && Contains(c, FormationPhrases[k]);
        assert k == 0 || k == 1;
      }
      if Contains(c, "articles of association") {
        assert Contains(c, FormationPhrases[0]);
      } else if Contains(c, "memorandum of association") {
        assert Contains(c, FormationPhrases[1]);
      }
    }
    var single := Contains(c, "board resolution") || Contains(c, "shareholder resolution") ||
      Contains(c, "incorporation application") || Contains(c, "ubo declaration") ||
      Contains(c, "register of members") || Contains(c, "change of registered address");
    assert ContainsAny(c, SinglePhrases) == single by {
      if ContainsAny(c, SinglePhrases) {
        var k :| 0 <= k < |SinglePhrases| && Contains(c, SinglePhrases[k]);
        assert k == 0 || k == 1 || k == 2 || k == 3 || k == 4 || k == 5;
      }
      if Contains(c, "board resolution") {
        assert Contains(c, SinglePhrases[0]);
      } else if Contains(c, "shareholder resolution") {
        assert Contains(c, SinglePhrases[1]);
      } else if Contains(c, "incorporation application") {
        assert Contains(c, SinglePhrases[2]);
      } else if Contains(c, "ubo declaration") {
        assert Contains(c, SinglePhrases[3]);
      } else if Contains(c, "register of members") {
        assert Contains(c, SinglePhrases[4]);
      } else if Contains(c, "change of registered address") {
        assert Contains(c, SinglePhrases[5]);
      }
    }
  }

  // ---------------------------------------------------------------------
  // extract_structure

  function Texts(ps: seq<Paragraph>): seq<string> {
    seq(|ps|, k requires 0 <= k < |ps| => ps[k].text)
  }

  /** `[s.strip() for s in ss if s.strip()]` */
  function Kept(ss: seq<string>): seq<string> {
    if ss == [] then []
    else
      var t := Strip(ss[|ss| - 1]);
      Kept(ss[..|ss| - 1]) + (if t == "" then [] else [t])
  }

  /** What survives the filter is non-blank and already stripped. */
  lemma {:induction false} KeptStripped(ss: seq<string>)
    ensures |Kept(ss)| <= |ss|
    ensures forall k :: 0 <= k < |Kept(ss)| ==> Kept(ss)[k] != "" && Strip(Kept(ss)[k]) == Kept(ss)[k]
  {
    if ss != [] {
      var init := ss[..|ss| - 1];
      var t := Strip(ss[|ss| - 1]);
      KeptStripped(init);
      if t != "" {
        StripTrimmed(ss[|ss| - 1]);
        StripOfTrimmed(t);
        assert Kept(ss) == Kept(init) + [t];
      } else {
        assert Kept(ss) == Kept(init);
      }
    }
  }

  lemma {:induction false} KeptAppend(a: seq<string>, b: seq<string>)
    ensures Kept(a + b) == Kept(a) + Kept(b)
    decreases |b|
  {
    if b != [] {
      assert (a + b)[..|a + b| - 1] == a + b[..|b| - 1];
      KeptAppend(a, b[..|b| - 1]);
    } else {
      assert a + b == a;
    }
  }

  /** Stripped texts of the paragraphs that are not blank, in order. */
  function KeptTexts(ps: seq<Paragraph>): seq<string> {
    Kept(Texts(ps))
  }

  /** The heading test applied to a stripped paragraph text and its style. */
  predicate IsHeading(text: string, styleName: string) {
    StartsWith(styleName, "Heading") ||
    (|text| < 100 && IsUpper(text)) ||
    (EndsWith(text, ":") && |text| < 50)
  }

  /** For each kept paragraph, whether it is a heading. */
  function HeadingFlags(ps: seq<Paragraph>): (flags: seq<bool>)
    ensures |flags| == |KeptTexts(ps)|
  {
    if ps == [] then []
    else
      var p := ps[|ps| - 1];
      var t := Strip(p.text);
      assert Texts(ps) == Texts(ps[..|ps| - 1]) + [p.text];
      KeptAppend(Texts(ps[..|ps| - 1]), [p.text]);
      assert Kept([p.text]) == [] + (if t == "" then [] else [t]);
      HeadingFlags(ps[..|ps| - 1]) + (if t == "" then [] else [IsHeading(t, p.styleName)])
  }

  function CountTrue(flags: seq<bool>): nat {
    if flags == [] then 0
    else CountTrue(flags[..|flags| - 1]) + (if flags[|flags| - 1] then 1 else 0)
  }

  /** Each section's title followed by its content, section after section. */
  function Flatten(sections: seq<Section>): seq<string> {
    if sections == [] then []
    else
      var s := sections[|sections| - 1];
      Flatten(sections[..|sections| - 1]) + [s.title] + s.content
  }

  function NotHeadings(n: nat): seq<bool> {
    seq(n, _ => false)
  }

  /** The heading flags that a list of sections stands for: a heading for
      each title, then one non-heading per content paragraph. */
  function SectionFlags(sections: seq<Section>): seq<bool> {
    if sections == [] then []
    else
      var s := sections[|sections| - 1];
      SectionFlags(sections[..|sections| - 1]) + [true] + NotHeadings(|s.content|)
  }

  lemma {:induction false} CountTrueAppend(a: seq<bool>, b: seq<bool>)
    ensures CountTrue(a + b) == CountTrue(a) + CountTrue(b)
    decreases |b|
  {
    if b != [] {
      assert (a + b)[..|a + b| - 1] == a + b[..|b| - 1];
      assert (a + b)[|a + b| - 1] == b[|b| - 1];
      CountTrueAppend(a, b[..|b| - 1]);
    } else {
      assert a + b == a;
    }
  }

  lemma {:induction false} CountNotHeadings(n: nat)
    ensures CountTrue(NotHeadings(n)) == 0
  {
    if n > 0 {
      assert NotHeadings(n)[..n - 1] == NotHeadings(n - 1);
      CountNotHeadings(n - 1);
    }
  }

  /** A list of sections stands for exactly one heading per section. */
  lemma {:induction false} CountSectionFlags(sections: seq<Section>)
    ensures CountTrue(SectionFlags(sections)) == |sections|
    decreases |sections|
  {
    if sections != [] {
      var init := sections[..|sections| - 1];
      var s := sections[|sections| - 1];
      CountSectionFlags(init);
      CountTrueAppend(SectionFlags(init) + [true], NotHeadings(|s.content|));
      CountTrueAppend(SectionFlags(init), [true]);
      CountNotHeadings(|s.content|);
    }
  }

  /** The loose paragraphs and the sections built so far. */
  datatype Grouping = Grouping(loose: seq<string>, sections: seq<Section>)

  /** One step of the grouping loop on a paragraph. */
  function GroupStep(g: Grouping, p: Paragraph): Grouping {
    var t := Strip(p.text);
    if t == "" then g
    else if IsHeading(t, p.styleName) then Grouping(g.loose, g.sections + [Section(t, [])])
    else if g.sections != [] then
      var last := g.sections[|g.sections| - 1];
      Grouping(g.loose, g.sections[..|g.sections| - 1] + [Section(last.title, last.content + [t])])
    else Grouping(g.loose + [t], g.sections)
  }

  /** The grouping of a paragraph list, paragraph after paragraph. */
  function Group(ps: seq<Paragraph>): Grouping {
    if ps == [] then Grouping([], [])
    else GroupStep(Group(ps[..|ps| - 1]), ps[|ps| - 1])
  }

  /** What a grouping stands for: the kept texts it holds in order, and
      which of them are headings. */
  predicate Represents(g: Grouping, ps: seq<Paragraph>) {
    g.loose + Flatten(g.sections) == KeptTexts(ps) &&
    NotHeadings(|g.loose|) + SectionFlags(g.sections) == HeadingFlags(ps) &&
    (g.sections == [] ==> g.loose == KeptTexts(ps))
  }

  lemma KeptTextsSnoc(ps: seq<Paragraph>, p: Paragraph)
    ensures var t := Strip(p.text);
      KeptTexts(ps + [p]) == KeptTexts(ps) + (if t == "" then [] else [t])
  {
    assert Texts(ps + [p]) == Texts(ps) + [p.text];
    KeptAppend(Texts(ps), [p.text]);
    var t := Strip(p.text);
    assert Kept([p.text]) == [] + (if t == "" then [] else [t]);
  }

  lemma HeadingFlagsSnoc(ps: seq<Paragraph>, p: Paragraph)
    ensures var t := Strip(p.text);
      HeadingFlags(ps + [p]) == HeadingFlags(ps) + (if t == "" then [] else [IsHeading(t, p.styleName)])
  {
    assert (ps + [p])[..|ps|] == ps;
  }

  lemma StepHeading(g: Grouping, texts: seq<string>, flags: seq<bool>, t: string)
    requires g.loose + Flatten(g.sections) == texts
    requires NotHeadings(|g.loose|) + SectionFlags(g.sections) == flags
    ensures var ss := g.sections + [Section(t, [])];
      g.loose + Flatten(ss) == texts + [t] &&
      NotHeadings(|g.loose|) + SectionFlags(ss) == flags + [true]
  {
    var ss := g.sections + [Section(t, [])];
    assert ss[..|ss| - 1] == g.sections;
    assert Flatten(ss) == Flatten(g.sections) + [t] + [];
    assert SectionFlags(ss) == SectionFlags(g.sections) + [true] + NotHeadings(0);
  }

  lemma StepContent(g: Grouping, texts: seq<string>, flags: seq<bool>, t: string)
    requires g.loose + Flatten(g.sections) == texts
    requires NotHeadings(|g.loose|) + SectionFlags(g.sections) == flags
    requires g.sections != []
    ensures var last := g.sections[|g.sections| - 1];
      var ss := g.sections[..|g.sections| - 1] + [Section(last.title, last.content + [t])];
      g.loose + Flatten(ss) == texts + [t] &&
      NotHeadings(|g.loose|) + SectionFlags(ss) == flags + [false]
  {
    var last := g.sections[|g.sections| - 1];
    var before := g.sections[..|g.sections| - 1];
    var ss := before + [Section(last.title, last.content + [t])];
    assert ss[..|ss| - 1] == before;
    assert Flatten(g.sections) == Flatten(before) + [last.title] + last.content;
    assert Flatten(ss) == Flatten(before) + [last.title] + (last.content + [t]);
    assert NotHeadings(|last.content| + 1) == NotHeadings(|last.content|) + [false];
    assert SectionFlags(g.sections) == SectionFlags(before) + [true] + NotHeadings(|last.content|);
    assert SectionFlags(ss) == SectionFlags(before) + [true] + NotHeadings(|last.content| + 1);
    assert Flatten(ss) == Flatten(g.sections) + [t];
    assert SectionFlags(ss) == SectionFlags(g.sections) + [false];
    assert g.loose + Flatten(ss) == (g.loose + Flatten(g.sections)) + [t];
    assert NotHeadings(|g.loose|) + SectionFlags(ss) == (NotHeadings(|g.loose|) + SectionFlags(g.sections)) + [false];
  }

  lemma StepLoose(g: Grouping, texts: seq<string>, flags: seq<bool>, t: string)
    requires g.loose == texts && g.sections == []
    requires NotHeadings(|g.loose|) + SectionFlags(g.sections) == flags
    ensures g.loose + [t] + Flatten(g.sections) == texts + [t]
    ensures NotHeadings(|g.loose| + 1) + SectionFlags(g.sections) == flags + [false]
  {
    assert NotHeadings(|g.loose| + 1) == NotHeadings(|g.loose|) + [false];
    assert NotHeadings(|g.loose|) + [] == NotHeadings(|g.loose|);
  }

  /** Each step keeps the grouping faithful to the paragraphs read so far. */
  lemma StepRepresents(g: Grouping, ps: seq<Paragraph>, p: Paragraph)
    requires Represents(g, ps)
    ensures Represents(GroupStep(g, p), ps + [p])
  {
    KeptTextsSnoc(ps, p);
    HeadingFlagsSnoc(ps, p);
    var t := Strip(p.text);
    var texts, flags := KeptTexts(ps), HeadingFlags(ps);
    if t != "" {
      if IsHeading(t, p.styleName) {
        StepHeading(g, texts, flags, t);
      } else if g.sections != [] {
        StepContent(g, texts, flags, t);
      } else {
        StepLoose(g, texts, flags, t);
      }
    }
  }

  /** The grouping of any paragraph list is faithful to it. */
  lemma {:induction false} GroupRepresents(ps: seq<Paragraph>)
    ensures Represents(Group(ps), ps)
  {
    if ps != [] {
      var init := ps[..|ps| - 1];
      var p := ps[|ps| - 1];
      assert init + [p] == ps;
      GroupRepresents(init);
      StepRepresents(Group(init), init, p);
      assert Group(ps) == GroupStep(Group(init), p);
    }
  }

  /** The grouping holds one section per heading. */
  lemma GroupCounts(ps: seq<Paragraph>)
    ensures Represents(Group(ps), ps)
    ensures |Group(ps).sections| == CountTrue(HeadingFlags(ps))
  {
    var g := Group(ps);
    GroupRepresents(ps);
    CountSectionFlags(g.sections);
    CountTrueAppend(NotHeadings(|g.loose|), SectionFlags(g.sections));
    CountNotHeadings(|g.loose|);
  }

  /** `extract_structure`: the title is the first paragraph stripped; blank
      paragraphs are skipped; a heading opens a new section; any other
      paragraph goes to the latest section, or to the loose paragraphs
      before the first heading. Read back in order, loose paragraphs then
      sections give every kept paragraph once, headings exactly at the
      section titles. */
  method ExtractStructure(ps: seq<Paragraph>) returns (structure: Structure)
    ensures structure.title == (if ps == [] then "" else Strip(ps[0].text))
    ensures Grouping(structure.paragraphs, structure.sections) == Group(ps)
    ensures structure.paragraphs + Flatten(structure.sections) == KeptTexts(ps)
    ensures NotHeadings(|structure.paragraphs|) + SectionFlags(structure.sections) == HeadingFlags(ps)
    ensures |structure.sections| == CountTrue(HeadingFlags(ps))
  {
    var title := if ps == [] then "" else Strip(ps[0].text);
    var sections: seq<Section> := [];
    var loose: seq<string> := [];
    var i := 0;
    while i < |ps|
      invariant 0 <= i <= |ps|
      invariant Grouping(loose, sections) == Group(ps[..i])
    {
      assert ps[..i + 1][..i] == ps[..i];
      assert Group(ps[..i + 1]) == GroupStep(Group(ps[..i]), ps[i]);
      var text := Strip(ps[i].text);
      if text != "" {
        if IsHeading(text, ps[i].styleName) {
          sections := sections + [Section(text, [])];
        } else if sections != [] {
          var last := sections[|sections| - 1];
          sections := sections[..|sections| - 1] + [Section(last.title, last.content + [text])];
        } else {
          loose := loose + [text];
        }
      }
      i := i + 1;
    }
    assert ps[..i] == ps;
    GroupCounts(ps);
    structure := Structure(title, sections, loose);
  }
}
