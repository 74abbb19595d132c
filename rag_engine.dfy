/** The knowledge lookup of src/rag_engine.py: a substring search over a
    fixed table of ADGM legal references, ranked by a relevance score and cut
    to five results, and the enrichment of issues with the references and
    official links found for them. */
module RagEngine {
  import opened AsciiText
  import opened IssueDicts

  datatype LegalReference = LegalReference(
    title: string,
    content: string,
    source: string,
    article: string,
    category: string)

  /** One entry of the knowledge-base dictionary: a category name and its
      references, in table order. */
  datatype Category = Category(name: string, references: seq<LegalReference>)

  /** The knowledge-base dictionary as its items in insertion order, which is
      the order Python iterates it in. */
  type KnowledgeBase = seq<Category>

  const CompaniesRegulations: string := "ADGM Companies Regulations 2020"
  const CommercialRegulations: string := "ADGM Commercial Regulations"

  /** The table `_initialize_knowledge_base` builds. */
  const AdgmKnowledgeBase: KnowledgeBase := [
    Category("company_formation", [
      LegalReference("Company Formation Requirements",
        "Companies must have a registered office in ADGM, minimum share capital as specified, and comply with corporate governance standards.",
        CompaniesRegulations, "Art. 6", "Formation"),
      LegalReference("Articles of Association",
        "Must include company name, registered office, objects clause, share capital structure, director qualifications, and amendment procedures.",
        CompaniesRegulations, "Art. 6", "Formation"),
      LegalReference("Director Qualifications",
        "Directors must be at least 18 years old, not disqualified, and meet fit and proper person criteria.",
        CompaniesRegulations, "Art. 22", "Governance")]),
    Category("compliance", [
      LegalReference("Compliance Requirements",
        "Companies must maintain proper books and records, file annual returns, and comply with ongoing reporting obligations.",
        CompaniesRegulations, "Art. 45", "Compliance"),
      LegalReference("Reporting Obligations",
        "Annual financial statements, director reports, and changes in company structure must be reported to ADGM.",
        CompaniesRegulations, "Art. 45", "Compliance")]),
    Category("commercial_regulations", [
      LegalReference("Business Licensing",
        "Business activities require appropriate licenses and compliance with sector-specific regulations.",
        CommercialRegulations, "Art. 3", "Licensing"),
      LegalReference("Risk Management",
        "Companies must implement appropriate risk management and compliance policies.",
        CommercialRegulations, "Art. 12", "Compliance")]),
    Category("jurisdiction", [
      LegalReference("ADGM Jurisdiction",
        "All legal matters, disputes, and compliance issues fall under ADGM Courts jurisdiction, not UAE Federal Courts.",
        CompaniesRegulations, "Art. 6", "Jurisdiction"),
      LegalReference("Court System",
        "ADGM operates its own court system with specialized commercial and civil courts.",
        "ADGM Court Regulations", "Art. 1", "Jurisdiction")])
  ]

  /** `kb.keys()` */
  function CategoryNames(kb: KnowledgeBase): (names: seq<string>)
    ensures |names| == |kb|
  {
    seq(|kb|, i requires 0 <= i < |kb| => kb[i].name)
  }

  /** `kb[name]` guarded by `name in kb`: the references of the first entry
      with that name. */
  function Lookup(kb: KnowledgeBase, name: string): Option<seq<LegalReference>> {
    if kb == [] then None
    else if kb[0].name == name then Some(kb[0].references)
    else Lookup(kb[1..], name)
  }

  /** A name is found exactly when it is a category name, and then it gives
      that category's references. */
  lemma {:induction false} LookupSpec(kb: KnowledgeBase, name: string)
    ensures Lookup(kb, name).Some? <==> name in CategoryNames(kb)
    ensures Lookup(kb, name).Some? ==>
      exists i :: 0 <= i < |kb| && kb[i].name == name && Lookup(kb, name).value == kb[i].references
  {
    if kb != [] {
      LookupSpec(kb[1..], name);
      assert CategoryNames(kb) == [kb[0].name] + CategoryNames(kb[1..]);
      if kb[0].name != name {
        if Lookup(kb, name).Some? {
          var i :| 0 <= i < |kb[1..]| && kb[1..][i].name == name && Lookup(kb[1..], name).value == kb[1..][i].references;
          assert kb[i + 1] == kb[1..][i];
        }
      }
    }
  }

  /** No two categories share a name, as the keys of a dictionary. */
  predicate DistinctNames(kb: KnowledgeBase) {
    forall i, j :: 0 <= i < j < |kb| ==> kb[i].name != kb[j].name
  }

  /** The table's four category names are distinct. */
  lemma KnowledgeBaseDistinct()
    ensures DistinctNames(AdgmKnowledgeBase)
  {
    var names := ["company_formation", "compliance", "commercial_regulations", "jurisdiction"];
    assert CategoryNames(AdgmKnowledgeBase) == names;
    assert forall i :: 0 <= i < |names| ==> |names[i]| == [17, 10, 22, 12][i];
  }

  /** With distinct names, looking up a category's name gives exactly that
      category's references, as indexing the dictionary does. */
  lemma {:induction false} LookupDistinct(kb: KnowledgeBase, i: nat)
    requires DistinctNames(kb) && i < |kb|
    ensures Lookup(kb, kb[i].name) == Some(kb[i].references)
  {
    if i > 0 {
      assert kb[0].name != kb[i].name;
      assert kb[1..][i - 1] == kb[i];
      LookupDistinct(kb[1..], i - 1);
    }
  }

  // ---------------------------------------------------------------------
  // Matching and relevance
  // ---------------------------------------------------------------------

  /** The test of `search_legal_knowledge`, for a query already lowercased. */
  predicate MatchesQuery(query: string, r: LegalReference) {
    Contains(Lower(r.title), query) || Contains(Lower(r.content), query) || Contains(Lower(r.article), query)
  }

  /** `_calculate_relevance_score`: 10 for a title hit, 5 for a content hit
      and 2 for an article hit. */
  function Relevance(query: string, r: LegalReference): nat {
    (if Contains(Lower(r.title), query) then 10 else 0)
    + (if Contains(Lower(r.content), query) then 5 else 0)
    + (if Contains(Lower(r.article), query) then 2 else 0)
  }

  /** The scores that can occur, from highest to lowest. */
  const RelevanceLevels: seq<nat> := [17, 15, 12, 10, 7, 5, 2, 0]

  /** Every score is one of the eight levels; a reference matches exactly
      when it scores at least 2, and a title hit outranks any reference
      without one. */
  lemma RelevanceFacts(query: string, r: LegalReference)
    ensures Relevance(query, r) in RelevanceLevels
    ensures MatchesQuery(query, r) <==> Relevance(query, r) >= 2
    ensures Contains(Lower(r.title), query) <==> Relevance(query, r) >= 10
  {
  }

  // ---------------------------------------------------------------------
  // Searching
  // ---------------------------------------------------------------------

  /** `[category] if category else kb.keys()`: an absent or empty category
      means every category. */
  function SearchedCategories(kb: KnowledgeBase, category: Option<string>): seq<string> {
    if category.Some? && category.value != "" then [category.value] else CategoryNames(kb)
  }

  /** The matching references of `refs`, in order. */
  function MatchingIn(query: string, refs: seq<LegalReference>): (r: seq<LegalReference>)
    ensures forall x :: x in r ==> x in refs && MatchesQuery(query, x)
  {
    if refs == [] then []
    else
      var last := refs[|refs| - 1];
      MatchingIn(query, refs[..|refs| - 1]) + (if MatchesQuery(query, last) then [last] else [])
  }

  /** The references the search loop collects from the categories `cats`,
      in the order it appends them. */
  function Candidates(kb: KnowledgeBase, query: string, cats: seq<string>): seq<LegalReference> {
    if cats == [] then []
    else
      var name := cats[|cats| - 1];
      Candidates(kb, query, cats[..|cats| - 1])
        + (match Lookup(kb, name) case Some(refs) => MatchingIn(query, refs) case None => [])
  }

  /** The references of `s` that score exactly `level`, in order. */
  function WithRelevance(query: string, s: seq<LegalReference>, level: nat): (r: seq<LegalReference>)
    ensures forall x :: x in r ==> x in s && Relevance(query, x) == level
  {
    if s == [] then []
    else
      var last := s[|s| - 1];
      WithRelevance(query, s[..|s| - 1], level) + (if Relevance(query, last) == level then [last] else [])
  }

  /** The references of `s` level by level, in the order of `levels`. */
  function Bucketed(query: string, s: seq<LegalReference>, levels: seq<nat>): seq<LegalReference> {
    if levels == [] then [] else WithRelevance(query, s, levels[0]) + Bucketed(query, s, levels[1..])
  }

  /** `s.sort(key=relevance, reverse=True)`: Python's sort is stable, so with
      finitely many scores it puts the references of each score together,
      highest score first, each group in its original order. */
  function SortByRelevance(query: string, s: seq<LegalReference>): seq<LegalReference> {
    Bucketed(query, s, RelevanceLevels)
  }

  /** `results[:5]` */
  function TopFive(s: seq<LegalReference>): (r: seq<LegalReference>)
    ensures |r| <= 5
  {
    if |s| <= 5 then s else s[..5]
  }

  /** What `search_legal_knowledge` returns. */
  function SearchResults(kb: KnowledgeBase, query: string, category: Option<string>): seq<LegalReference> {
    var q := Lower(query);
    TopFive(SortByRelevance(q, Candidates(kb, q, SearchedCategories(kb, category))))
  }

  predicate SortedByRelevance(query: string, s: seq<LegalReference>) {
    forall i, j :: 0 <= i < j < |s| ==> Relevance(query, s[i]) >= Relevance(query, s[j])
  }

  predicate Descending(levels: seq<nat>) {
    forall i, j :: 0 <= i < j < |levels| ==> levels[i] > levels[j]
  }

  /** Concatenating the levels in descending order gives a list sorted by
      relevance, holding only references whose score is one of the levels. */
  lemma {:induction false} BucketedSorted(query: string, s: seq<LegalReference>, levels: seq<nat>)
    requires Descending(levels)
    ensures SortedByRelevance(query, Bucketed(query, s, levels))
    ensures forall x :: x in Bucketed(query, s, levels) ==> Relevance(query, x) in levels
  {
    if levels != [] {
      var a := WithRelevance(query, s, levels[0]);
      var b := Bucketed(query, s, levels[1..]);
      BucketedSorted(query, s, levels[1..]);
      assert forall x :: x in b ==> Relevance(query, x) < levels[0];
      forall i, j | 0 <= i < j < |a + b|
        ensures Relevance(query, (a + b)[i]) >= Relevance(query, (a + b)[j])
      {
        if j < |a| {
          assert (a + b)[i] == a[i] && (a + b)[j] == a[j];
        } else if i < |a| {
          assert (a + b)[i] == a[i] && (a + b)[j] == b[j - |a|];
        } else {
          assert (a + b)[i] == b[i - |a|] && (a + b)[j] == b[j - |a|];
        }
      }
    }
  }

  lemma WithRelevanceAppend(query: string, s: seq<LegalReference>, x: LegalReference, level: nat)
    ensures WithRelevance(query, s + [x], level)
      == WithRelevance(query, s, level) + (if Relevance(query, x) == level then [x] else [])
  {
    assert (s + [x])[..|s + [x]| - 1] == s;
  }

  /** One more reference adds itself to the bucket of its score, if that
      score is a level. */
  lemma {:induction false} BucketedAppend(query: string, s: seq<LegalReference>, x: LegalReference, levels: seq<nat>)
    requires Descending(levels)
    ensures multiset(Bucketed(query, s + [x], levels))
      == multiset(Bucketed(query, s, levels)) + (if Relevance(query, x) in levels then multiset{x} else multiset{})
  {
    if levels != [] {
      var r := Relevance(query, x);
      WithRelevanceAppend(query, s, x, levels[0]);
      BucketedAppend(query, s, x, levels[1..]);
      LevelOnce(r, levels, x);
      BucketsJoin(WithRelevance(query, s, levels[0]), WithRelevance(query, s + [x], levels[0]),
                  Bucketed(query, s, levels[1..]), Bucketed(query, s + [x], levels[1..]),
                  if r == levels[0] then multiset{x} else multiset{},
                  if r in levels[1..] then multiset{x} else multiset{});
    }
  }

  /** A score is at most one of a descending list of levels. */
  lemma LevelOnce(r: nat, levels: seq<nat>, x: LegalReference)
    requires Descending(levels) && levels != []
    ensures (if r == levels[0] then multiset{x} else multiset{}) + (if r in levels[1..] then multiset{x} else multiset{})
      == if r in levels then multiset{x} else multiset{}
  {
    assert r == levels[0] ==> r !in levels[1..];
    assert r in levels <==> r == levels[0] || r in levels[1..];
  }

  /** Growing the first bucket and the later ones grows their concatenation by both. */
  lemma BucketsJoin(a: seq<LegalReference>, a': seq<LegalReference>, b: seq<LegalReference>, b': seq<LegalReference>,
                    bucket: multiset<LegalReference>, later: multiset<LegalReference>)
    requires multiset(a') == multiset(a) + bucket && multiset(b') == multiset(b) + later
    ensures multiset(a' + b') == multiset(a + b) + (bucket + later)
  {
  }

  /** When every score is a level, the buckets hold exactly the references
      of `s`, each as often as in `s`. */
  lemma {:induction false} BucketedPermutes(query: string, s: seq<LegalReference>, levels: seq<nat>)
    requires Descending(levels)
    requires forall x :: x in s ==> Relevance(query, x) in levels
    ensures multiset(Bucketed(query, s, levels)) == multiset(s)
  {
    if s == [] {
      BucketedOfEmpty(query, levels);
    } else {
      var init := s[..|s| - 1];
      var last := s[|s| - 1];
      assert s == init + [last];
      BucketedPermutes(query, init, levels);
      BucketedAppend(query, init, last, levels);
    }
  }

  lemma {:induction false} BucketedOfEmpty(query: string, levels: seq<nat>)
    ensures Bucketed(query, [], levels) == []
  {
    if levels != [] {
      BucketedOfEmpty(query, levels[1..]);
    }
  }

  lemma {:induction false} WithRelevanceConcat(query: string, a: seq<LegalReference>, b: seq<LegalReference>, level: nat)
    ensures WithRelevance(query, a + b, level) == WithRelevance(query, a, level) + WithRelevance(query, b, level)
  {
    if b == [] {
      assert a + b == a;
    } else {
      var init := b[..|b| - 1];
      var last := b[|b| - 1];
      assert a + b == (a + init) + [last];
      assert b == init + [last];
      WithRelevanceConcat(query, a, init, level);
      WithRelevanceAppend(query, a + init, last, level);
      WithRelevanceAppend(query, init, last, level);
    }
  }

  lemma {:induction false} WithRelevanceTwice(query: string, s: seq<LegalReference>, outer: nat, inner: nat)
    ensures WithRelevance(query, WithRelevance(query, s, inner), outer)
      == if outer == inner then WithRelevance(query, s, inner) else []
  {
    if s != [] {
      var init := s[..|s| - 1];
      var last := s[|s| - 1];
      var w := WithRelevance(query, init, inner);
      WithRelevanceTwice(query, init, outer, inner);
      if Relevance(query, last) == inner {
        assert WithRelevance(query, s, inner) == w + [last];
        WithRelevanceAppend(query, w, last, outer);
      } else {
        assert WithRelevance(query, s, inner) == w;
      }
    }
  }

  /** Picking one score out of the buckets gives the references of that
      score in their original order. */
  lemma {:induction false} BucketedStable(query: string, s: seq<LegalReference>, levels: seq<nat>, level: nat)
    requires Descending(levels)
    ensures WithRelevance(query, Bucketed(query, s, levels), level)
      == if level in levels then WithRelevance(query, s, level) else []
  {
    if levels != [] {
      WithRelevanceConcat(query, WithRelevance(query, s, levels[0]), Bucketed(query, s, levels[1..]), level);
      WithRelevanceTwice(query, s, level, levels[0]);
      BucketedStable(query, s, levels[1..], level);
      if level == levels[0] {
        assert level !in levels[1..];
      }
    }
  }

  lemma {:induction false} WithRelevanceNone(query: string, s: seq<LegalReference>, level: nat)
    requires forall x :: x in s ==> Relevance(query, x) != level
    ensures WithRelevance(query, s, level) == []
  {
    if s != [] {
      WithRelevanceNone(query, s[..|s| - 1], level);
    }
  }

  /** The sort is a stable descending sort: sorted by relevance, a
      permutation of its input, and for every score the references with
      that score come out in the order they went in. */
  lemma SortByRelevanceSpec(query: string, s: seq<LegalReference>)
    ensures SortedByRelevance(query, SortByRelevance(query, s))
    ensures multiset(SortByRelevance(query, s)) == multiset(s)
    ensures forall level :: WithRelevance(query, SortByRelevance(query, s), level) == WithRelevance(query, s, level)
  {
    assert Descending(RelevanceLevels);
    forall x | x in s
      ensures Relevance(query, x) in RelevanceLevels
    {
      RelevanceFacts(query, x);
    }
    BucketedSorted(query, s, RelevanceLevels);
    BucketedPermutes(query, s, RelevanceLevels);
    forall level
      ensures WithRelevance(query, SortByRelevance(query, s), level) == WithRelevance(query, s, level)
    {
      BucketedStable(query, s, RelevanceLevels, level);
      if level !in RelevanceLevels {
        WithRelevanceNone(query, s, level);
      }
    }
  }

  /** `x` is one of the references of a category named in `cats`. */
  predicate FromCategories(kb: KnowledgeBase, cats: seq<string>, x: LegalReference) {
    exists c :: c in cats && Lookup(kb, c).Some? && x in Lookup(kb, c).value
  }

  /** Each collected reference matches the query and comes from one of the
      searched categories; every matching reference of a searched category
      is collected. */
  lemma {:induction false} CandidatesSpec(kb: KnowledgeBase, query: string, cats: seq<string>, x: LegalReference)
    ensures x in Candidates(kb, query, cats) <==> MatchesQuery(query, x) && FromCategories(kb, cats, x)
  {
    if cats != [] {
      var init := cats[..|cats| - 1];
      var name := cats[|cats| - 1];
      var tail := match Lookup(kb, name) case Some(refs) => MatchingIn(query, refs) case None => [];
      assert Candidates(kb, query, cats) == Candidates(kb, query, init) + tail;
      CandidatesSpec(kb, query, init, x);
      if Lookup(kb, name).Some? {
        MatchingInSpec(query, Lookup(kb, name).value, x);
      }
      if x in Candidates(kb, query, cats) {
        if x in Candidates(kb, query, init) {
          var c :| c in init && Lookup(kb, c).Some? && x in Lookup(kb, c).value;
          assert c in cats;
        } else {
          assert x in tail;
          assert name in cats;
        }
      }
      if MatchesQuery(query, x) && FromCategories(kb, cats, x) {
        var c :| c in cats && Lookup(kb, c).Some? && x in Lookup(kb, c).value;
        if c != name {
          assert c in init;
        }
      }
    }
  }

  lemma {:induction false} MatchingInSpec(query: string, refs: seq<LegalReference>, x: LegalReference)
    ensures x in MatchingIn(query, refs) <==> x in refs && MatchesQuery(query, x)
  {
    if refs != [] {
      var init := refs[..|refs| - 1];
      MatchingInSpec(query, init, x);
      assert refs == init + [refs[|refs| - 1]];
    }
  }

  /** `search_legal_knowledge` */
  method SearchLegalKnowledge(kb: KnowledgeBase, query: string, category: Option<string>)
    returns (results: seq<LegalReference>)
    ensures results == SearchResults(kb, query, category)
  {
    var q := Lower(query);
    var cats := SearchedCategories(kb, category);
    results := [];
    for c := 0 to |cats|
      invariant results == Candidates(kb, q, cats[..c])
    {
      assert cats[..c + 1][..c] == cats[..c];
      var refs := Lookup(kb, cats[c]);
      if refs.Some? {
        results := AppendMatching(results, q, refs.value);
      }
    }
    assert cats[..|cats|] == cats;
    // the in-place stable sort
    results := SortByRelevance(q, results);
    if |results| > 5 {
      results := results[..5];
    }
  }

  /** The inner loop of `search_legal_knowledge`: appends the references of
      one category that match the query, in order. */
  method AppendMatching(results: seq<LegalReference>, q: string, refs: seq<LegalReference>)
    returns (extended: seq<LegalReference>)
    ensures extended == results + MatchingIn(q, refs)
  {
    extended := results;
    for j := 0 to |refs|
      invariant extended == results + MatchingIn(q, refs[..j])
    {
      assert refs[..j + 1][..j] == refs[..j];
      if MatchesQuery(q, refs[j]) {
        extended := extended + [refs[j]];
      }
    }
    assert refs[..|refs|] == refs;
  }

  /** At most five results, in non-increasing relevance. */
  lemma SearchResultsSorted(kb: KnowledgeBase, query: string, category: Option<string>)
    ensures |SearchResults(kb, query, category)| <= 5
    ensures SortedByRelevance(Lower(query), SearchResults(kb, query, category))
  {
    var q := Lower(query);
    var all := Candidates(kb, q, SearchedCategories(kb, category));
    var sorted := SortByRelevance(q, all);
    SortByRelevanceSpec(q, all);
    var r := SearchResults(kb, query, category);
    assert forall k :: 0 <= k < |r| ==> r[k] == sorted[k];
  }

  /** Each result matches the lowercased query, so scores at least 2, and
      is a reference of a searched category. */
  lemma SearchResultsMatch(kb: KnowledgeBase, query: string, category: Option<string>, x: LegalReference)
    requires x in SearchResults(kb, query, category)
    ensures MatchesQuery(Lower(query), x) && Relevance(Lower(query), x) >= 2
    ensures FromCategories(kb, SearchedCategories(kb, category), x)
  {
    var q := Lower(query);
    var cats := SearchedCategories(kb, category);
    var all := Candidates(kb, q, cats);
    var sorted := SortByRelevance(q, all);
    SortByRelevanceSpec(q, all);
    assert x in sorted;
    assert x in multiset(all);
    CandidatesSpec(kb, q, cats, x);
    RelevanceFacts(q, x);
  }

  /** A category that is named but absent gives no result. */
  lemma SearchUnknownCategory(kb: KnowledgeBase, query: string, c: string)
    requires c != "" && Lookup(kb, c).None?
    ensures SearchResults(kb, query, Some(c)) == []
  {
    var q := Lower(query);
    assert SearchedCategories(kb, Some(c)) == [c];
    assert Candidates(kb, q, [c][..0]) == [];
    BucketedOfEmpty(q, RelevanceLevels);
  }

  /** Only the cut drops references: a matching reference of a searched
      category that is not returned was beaten to one of five places by
      references scoring at least as high. */
  lemma SearchResultsComplete(kb: KnowledgeBase, query: string, category: Option<string>, x: LegalReference)
    requires MatchesQuery(Lower(query), x)
    requires FromCategories(kb, SearchedCategories(kb, category), x)
    requires x !in SearchResults(kb, query, category)
    ensures |SearchResults(kb, query, category)| == 5
    ensures forall y :: y in SearchResults(kb, query, category) ==> Relevance(Lower(query), y) >= Relevance(Lower(query), x)
  {
    var q := Lower(query);
    var cats := SearchedCategories(kb, category);
    var all := Candidates(kb, q, cats);
    var sorted := SortByRelevance(q, all);
    CandidatesSpec(kb, q, cats, x);
    SortByRelevanceSpec(q, all);
    assert x in multiset(sorted);
    TopFiveKeepsBest(q, sorted, x);
  }

  /** A reference of a sorted list that the cut drops scores no higher than
      any of the five kept, and there were more than five. */
  lemma TopFiveKeepsBest(q: string, sorted: seq<LegalReference>, x: LegalReference)
    requires SortedByRelevance(q, sorted) && x in sorted && x !in TopFive(sorted)
    ensures |TopFive(sorted)| == 5
    ensures forall y :: y in TopFive(sorted) ==> Relevance(q, y) >= Relevance(q, x)
  {
    var i :| 0 <= i < |sorted| && sorted[i] == x;
    assert |sorted| > 5;
    assert TopFive(sorted) == sorted[..5];
    assert i >= 5;
    forall y | y in TopFive(sorted)
      ensures Relevance(q, y) >= Relevance(q, x)
    {
      var k :| 0 <= k < 5 && sorted[..5][k] == y;
      assert sorted[k] == y;
    }
  }

  lemma {:induction false} WithRelevancePrefix(query: string, s: seq<LegalReference>, n: nat, level: nat)
    requires n <= |s|
    ensures WithRelevance(query, s[..n], level) <= WithRelevance(query, s, level)
  {
    assert s == s[..n] + s[n..];
    WithRelevanceConcat(query, s[..n], s[n..], level);
  }

  /** Ties keep table order: for every score, the results with that score
      are the first ones, in table order, of the collected references with
      that score. */
  lemma SearchKeepsTableOrder(kb: KnowledgeBase, query: string, category: Option<string>, level: nat)
    ensures var q := Lower(query);
      WithRelevance(q, SearchResults(kb, query, category), level)
        <= WithRelevance(q, Candidates(kb, q, SearchedCategories(kb, category)), level)
  {
    var q := Lower(query);
    var all := Candidates(kb, q, SearchedCategories(kb, category));
    var sorted := SortByRelevance(q, all);
    SortByRelevanceSpec(q, all);
    if |sorted| > 5 {
      WithRelevancePrefix(q, sorted, 5, level);
    }
  }

  // ---------------------------------------------------------------------
  // Guidance, references, citations and links
  // ---------------------------------------------------------------------

  /** `get_compliance_guidance`: the query is the document type and the
      issue type joined by a space; the issue type picks the category. */
  function ComplianceGuidance(kb: KnowledgeBase, documentType: string, issueType: string): seq<LegalReference> {
    var query := documentType + " " + issueType;
    var t := Lower(issueType);
    if Contains(t, "jurisdiction") then SearchResults(kb, query, Some("jurisdiction"))
    else if Contains(t, "formation") then SearchResults(kb, query, Some("company_formation"))
    else if Contains(t, "compliance") then SearchResults(kb, query, Some("compliance"))
    else SearchResults(kb, query, None)
  }

  /** Guidance for an issue whose type mentions jurisdiction comes only from
      the jurisdiction category, and never exceeds five references. */
  lemma JurisdictionGuidance(kb: KnowledgeBase, documentType: string, issueType: string)
    requires Contains(Lower(issueType), "jurisdiction")
    ensures var g := ComplianceGuidance(kb, documentType, issueType);
      |g| <= 5 && forall x :: x in g ==> Lookup(kb, "jurisdiction").Some? && x in Lookup(kb, "jurisdiction").value
  {
    var query := documentType + " " + issueType;
    SearchResultsSorted(kb, query, Some("jurisdiction"));
    forall x | x in ComplianceGuidance(kb, documentType, issueType)
      ensures Lookup(kb, "jurisdiction").Some? && x in Lookup(kb, "jurisdiction").value
    {
      SearchResultsMatch(kb, query, Some("jurisdiction"), x);
      assert SearchedCategories(kb, Some("jurisdiction")) == ["jurisdiction"];
    }
  }

  /** Guidance of every kind matches the query and comes from the category
      the issue type picks: jurisdiction before formation before compliance,
      and any category of the table when the type names none of them. */
  lemma GuidanceSources(kb: KnowledgeBase, documentType: string, issueType: string, x: LegalReference)
    requires x in ComplianceGuidance(kb, documentType, issueType)
    ensures MatchesQuery(Lower(documentType + " " + issueType), x)
    ensures var t := Lower(issueType);
      var c := if Contains(t, "jurisdiction") then "jurisdiction"
        else if Contains(t, "formation") then "company_formation"
        else if Contains(t, "compliance") then "compliance"
        else "";
      if c != "" then Lookup(kb, c).Some? && x in Lookup(kb, c).value
      else exists d :: d in CategoryNames(kb) && Lookup(kb, d).Some? && x in Lookup(kb, d).value
  {
    var query := documentType + " " + issueType;
    var t := Lower(issueType);
    var category :=
      if Contains(t, "jurisdiction") then Some("jurisdiction")
      else if Contains(t, "formation") then Some("company_formation")
      else if Contains(t, "compliance") then Some("compliance")
      else None;
    assert ComplianceGuidance(kb, documentType, issueType) == SearchResults(kb, query, category);
    SearchResultsMatch(kb, query, category, x);
  }

  /** Guidance never exceeds five references. */
  lemma GuidanceAtMostFive(kb: KnowledgeBase, documentType: string, issueType: string)
    ensures |ComplianceGuidance(kb, documentType, issueType)| <= 5
  {
    var query := documentType + " " + issueType;
    SearchResultsSorted(kb, query, Some("jurisdiction"));
    SearchResultsSorted(kb, query, Some("company_formation"));
    SearchResultsSorted(kb, query, Some("compliance"));
    SearchResultsSorted(kb, query, None);
  }

  /** Every reference of the table in order, category after category. */
  function AllReferences(kb: KnowledgeBase): seq<LegalReference> {
    if kb == [] then [] else kb[0].references + AllReferences(kb[1..])
  }

  predicate ReferenceMatches(r: LegalReference, article: string, regulation: string) {
    Lower(r.article) == Lower(article) && Contains(Lower(r.source), Lower(regulation))
  }

  /** The first reference of `refs` for the article and regulation. */
  function FirstReference(refs: seq<LegalReference>, article: string, regulation: string): Option<LegalReference> {
    if refs == [] then None
    else if ReferenceMatches(refs[0], article, regulation) then Some(refs[0])
    else FirstReference(refs[1..], article, regulation)
  }

  /** `get_adgm_reference` */
  function AdgmReference(kb: KnowledgeBase, article: string, regulation: string): Option<LegalReference> {
    FirstReference(AllReferences(kb), article, regulation)
  }

  /** The lookup finds the first reference, in table order, whose article
      equals the given one ignoring case and whose source contains the
      regulation ignoring case; it finds none only when no reference does. */
  lemma {:induction false} FirstReferenceSpec(refs: seq<LegalReference>, article: string, regulation: string)
    returns (i: nat)
    ensures FirstReference(refs, article, regulation).Some? ==>
      i < |refs| && FirstReference(refs, article, regulation).value == refs[i] &&
      ReferenceMatches(refs[i], article, regulation) &&
      forall k :: 0 <= k < i ==> !ReferenceMatches(refs[k], article, regulation)
    ensures FirstReference(refs, article, regulation).None? <==>
      forall k :: 0 <= k < |refs| ==> !ReferenceMatches(refs[k], article, regulation)
  {
    i := 0;
    if refs != [] && !ReferenceMatches(refs[0], article, regulation) {
      var j := FirstReferenceSpec(refs[1..], article, regulation);
      i := j + 1;
      forall k | 1 <= k < |refs|
        ensures refs[k] == refs[1..][k - 1]
      {
      }
    }
  }

  /** `generate_legal_citation`: "{source}, {article}". */
  function Citation(r: LegalReference): string {
    r.source + ", " + r.article
  }

  /** The citation opens with the source and closes with the article, so
      both can be read back from it. */
  lemma CitationParts(r: LegalReference)
    ensures var c := Citation(r);
      |c| == |r.source| + 2 + |r.article| && c[..|r.source|] == r.source && c[|r.source| + 2..] == r.article
  {
  }

  /** `_get_adgm_official_links` */
  const AdgmLinks: map<string, string> := map[
    "main_website" := "https://www.adgm.com",
    "companies_regulations" := "https://www.adgm.com/operating-in-adgm/legal-framework/companies-regulations-2020",
    "commercial_regulations" := "https://www.adgm.com/operating-in-adgm/legal-framework/commercial-regulations",
    "court_system" := "https://www.adgm.com/operating-in-adgm/legal-framework/court-system",
    "licensing" := "https://www.adgm.com/operating-in-adgm/doing-business-licensing",
    "compliance" := "https://www.adgm.com/operating-in-adgm/operating-compliance"]

  /** The link names `get_adgm_links_for_category` lists per category. */
  const CategoryLinkNames: map<string, seq<string>> := map[
    "company_formation" := ["main_website", "companies_regulations", "licensing"],
    "compliance" := ["compliance", "companies_regulations"],
    "commercial" := ["commercial_regulations", "licensing"],
    "jurisdiction" := ["court_system", "companies_regulations"]]

  /** `[links[name] for name in names if name in links]` */
  function LinkUrls(names: seq<string>): (urls: seq<string>)
    ensures |urls| <= |names|
    ensures forall u :: u in urls ==> u in AdgmLinks.Values
  {
    if names == [] then []
    else (if names[0] in AdgmLinks then [AdgmLinks[names[0]]] else []) + LinkUrls(names[1..])
  }

  /** `get_adgm_links_for_category` */
  function LinksForCategory(category: string): seq<string> {
    LinkUrls(if category in CategoryLinkNames then CategoryLinkNames[category] else [])
  }

  lemma {:induction false} LinkUrlsAllKnown(names: seq<string>)
    requires forall k :: 0 <= k < |names| ==> names[k] in AdgmLinks
    ensures |LinkUrls(names)| == |names|
  {
    if names != [] {
      LinkUrlsAllKnown(names[1..]);
    }
  }

  /** Every listed link name is an official link, so a listed category gets
      one URL per name, at least two; an unlisted category gets none. */
  lemma LinksForCategoryFacts(category: string)
    ensures category !in CategoryLinkNames ==> LinksForCategory(category) == []
    ensures category in CategoryLinkNames ==>
      |LinksForCategory(category)| == |CategoryLinkNames[category]| && |LinksForCategory(category)| >= 2
    ensures forall u :: u in LinksForCategory(category) ==> u in AdgmLinks.Values
  {
    if category in CategoryLinkNames {
      LinkUrlsAllKnown(CategoryLinkNames[category]);
    }
  }

  /** `_determine_issue_category` */
  function IssueCategory(issue: Issue): string {
    var t := Lower(Get(issue, "type", ""));
    if Contains(t, "jurisdiction") then "jurisdiction"
    else if Contains(t, "formation") || Contains(t, "clause") then "company_formation"
    else if Contains(t, "compliance") then "compliance"
    else "commercial"
  }

  /** The category follows the lowercased type by priority, and each of the
      four has its own links. */
  lemma IssueCategoryCases(issue: Issue)
    ensures var t := Lower(Get(issue, "type", ""));
      var c := IssueCategory(issue);
      (c == "jurisdiction" <==> Contains(t, "jurisdiction")) &&
      (c == "company_formation" <==> !Contains(t, "jurisdiction") && (Contains(t, "formation") || Contains(t, "clause"))) &&
      (c == "compliance" <==> !Contains(t, "jurisdiction") && !Contains(t, "formation") && !Contains(t, "clause") && Contains(t, "compliance")) &&
      (c == "commercial" <==> !Contains(t, "jurisdiction") && !Contains(t, "formation") && !Contains(t, "clause") && !Contains(t, "compliance"))
    ensures |LinksForCategory(IssueCategory(issue))| >= 2
  {
    LinksForCategoryFacts(IssueCategory(issue));
  }

  // ---------------------------------------------------------------------
  // Enriching issues
  // ---------------------------------------------------------------------

  /** The 'legal_references' entries made of the guidance. */
  function CiteAll(refs: seq<LegalReference>): (cited: seq<CitedReference>)
    ensures |cited| == |refs|
  {
    seq(|refs|, i requires 0 <= i < |refs| =>
      CitedReference(refs[i].title, refs[i].content, refs[i].source, refs[i].article, Citation(refs[i])))
  }

  /** One issue after enrichment: a copy that gains the cited guidance and
      the category's links when there is guidance. */
  function Enhanced(kb: KnowledgeBase, issue: Issue): Issue {
    var guidance := ComplianceGuidance(kb, Get(issue, "document_type", ""), Get(issue, "type", ""));
    if guidance == [] then issue
    else issue["legal_references" := References(CiteAll(guidance))]["adgm_links" := Links(LinksForCategory(IssueCategory(issue)))]
  }

  /** Enrichment only adds: every other key keeps its value, and the two new
      keys appear exactly when there is guidance, with one cited entry per
      guidance reference and at least two links. */
  lemma EnhancedOnlyAdds(kb: KnowledgeBase, issue: Issue)
    ensures var out := Enhanced(kb, issue);
      var guidance := ComplianceGuidance(kb, Get(issue, "document_type", ""), Get(issue, "type", ""));
      (forall k :: k in issue && k != "legal_references" && k != "adgm_links" ==> k in out && out[k] == issue[k]) &&
      (guidance == [] ==> out == issue) &&
      (guidance != [] ==>
        out.Keys == issue.Keys + {"legal_references", "adgm_links"} &&
        out["legal_references"].References? && |out["legal_references"].references| == |guidance| &&
        out["adgm_links"].Links? && |out["adgm_links"].links| >= 2)
  {
    IssueCategoryCases(issue);
  }

  /** `enhance_compliance_analysis` */
  method EnhanceComplianceAnalysis(kb: KnowledgeBase, issues: seq<Issue>) returns (enhanced: seq<Issue>)
    ensures |enhanced| == |issues|
    ensures forall i :: 0 <= i < |issues| ==> enhanced[i] == Enhanced(kb, issues[i])
  {
    enhanced := [];
    for i := 0 to |issues|
      invariant |enhanced| == i
      invariant forall k :: 0 <= k < i ==> enhanced[k] == Enhanced(kb, issues[k])
    {
      var enhancedIssue := EnhanceIssue(kb, issues[i]);
      enhanced := enhanced + [enhancedIssue];
    }
  }

  /** The body of the loop of `enhance_compliance_analysis` for one issue. */
  method EnhanceIssue(kb: KnowledgeBase, issue: Issue) returns (enhancedIssue: Issue)
    ensures enhancedIssue == Enhanced(kb, issue)
  {
    enhancedIssue := issue;
    var guidance := ComplianceGuidance(kb, Get(issue, "document_type", ""), Get(issue, "type", ""));
    if guidance != [] {
      enhancedIssue := enhancedIssue["legal_references" := References(CiteAll(guidance))];
      var category := IssueCategory(issue);
      enhancedIssue := enhancedIssue["adgm_links" := Links(LinksForCategory(category))];
    }
  }
}
