/** The regular expressions of the compliance rules are all of one shape:
    literal words separated by `\s+`, some words ending in an optional `s`
    (`ADGM\s+Courts?`), searched with `re.finditer(..., re.IGNORECASE)`.
    A pattern is modelled as its list of words. For this shape a greedy
    left-to-right match needs no backtracking: `\s+` is always followed by a
    letter and `s?` by whitespace or the end, so the greedy choice is the only
    one that can succeed. */
module PhrasePatterns {
  import opened AsciiText

  /** One word of a pattern, in lower case; `optionalS` marks a trailing `s?`. */
  datatype Token = Token(word: string, optionalS: bool)

  /** Words separated by `\s+`. */
  type Pattern = seq<Token>

  predicate WellFormed(p: Pattern) {
    |p| > 0 && forall k :: 0 <= k < |p| ==> |p[k].word| > 0
  }

  /** The end of the run of whitespace that starts at `i`. */
  function SpaceRunEnd(text: string, i: nat): (e: nat)
    requires i <= |text|
    ensures i <= e <= |text|
    ensures forall k :: i <= k < e ==> IsSpace(text[k])
    ensures e == |text| || !IsSpace(text[e])
    decreases |text| - i
  {
    if i < |text| && IsSpace(text[i]) then SpaceRunEnd(text, i + 1) else i
  }

  /** The end of the match of `toks` that starts at `i`, if there is one. */
  function MatchTokens(text: string, i: nat, toks: Pattern): (r: Option<nat>)
    requires i <= |text|
    ensures r.Some? ==> i <= r.value <= |text|
    ensures r.Some? && toks != [] && |toks[0].word| > 0 ==> i < r.value
    decreases toks
  {
    if toks == [] then Some(i)
    else
      var w := toks[0].word;
      if i + |w| <= |text| && Lower(text[i..i + |w|]) == w then
        var j := i + |w|;
        var j' := if toks[0].optionalS && j < |text| && LowerChar(text[j]) == 's' then j + 1 else j;
        if |toks| == 1 then Some(j')
        else
          var k := SpaceRunEnd(text, j');
          if k == j' then None else MatchTokens(text, k, toks[1..])
      else None
  }

  /** `[m.group() for m in re.finditer(p, text[i..], re.IGNORECASE)]`:
      non-overlapping matches, left to right, each in the text's own case. */
  function FindAll(text: string, p: Pattern, i: nat): (ms: seq<string>)
    requires WellFormed(p) && i <= |text|
    decreases |text| - i
  {
    if i == |text| then []
    else
      match MatchTokens(text, i, p)
      case Some(e) => [text[i..e]] + FindAll(text, p, e)
      case None => FindAll(text, p, i + 1)
  }

  /** The pattern matches somewhere in `text[i..]`. */
  predicate OccursFrom(text: string, p: Pattern, i: nat)
    requires i <= |text|
  {
    exists k :: i <= k < |text| && MatchTokens(text, k, p).Some?
  }

  /** No match is reported exactly when the pattern occurs nowhere. */
  lemma {:induction false} FindAllEmptyIff(text: string, p: Pattern, i: nat)
    requires WellFormed(p) && i <= |text|
    ensures FindAll(text, p, i) == [] <==> !OccursFrom(text, p, i)
    decreases |text| - i
  {
    if i < |text| {
      FindAllEmptyIff(text, p, i + 1);
      if MatchTokens(text, i, p).None? {
        if OccursFrom(text, p, i) {
          var k :| i <= k < |text| && MatchTokens(text, k, p).Some?;
          assert k != i;
          assert OccursFrom(text, p, i + 1);
        }
      }
    }
  }

  /** Every reported match is the text of an occurrence of the pattern. */
  lemma {:induction false} FindAllOccurrence(text: string, p: Pattern, i: nat, n: nat) returns (k: nat, e: nat)
    requires WellFormed(p) && i <= |text|
    requires n < |FindAll(text, p, i)|
    ensures i <= k < e <= |text|
    ensures MatchTokens(text, k, p) == Some(e)
    ensures FindAll(text, p, i)[n] == text[k..e]
    decreases |text| - i
  {
    match MatchTokens(text, i, p)
    case Some(end) =>
      if n == 0 {
        k, e := i, end;
      } else {
        k, e := FindAllOccurrence(text, p, end, n - 1);
      }
    case None =>
      k, e := FindAllOccurrence(text, p, i + 1, n);
  }
}
