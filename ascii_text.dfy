/** ASCII models of the Python `str` operations the review tool relies on:
    `lower`, `strip`, `split`, `join`, `isupper`, `startswith`, `endswith`,
    `replace`, the `in` substring test and `str(int)`. Whitespace is what
    `str.isspace` accepts among the ASCII characters. */
module AsciiText {

  datatype Option<+T> = None | Some(value: T) {
    /** `dict.get(key, default)` once the lookup is done. */
    function GetOr(default: T): T {
      if Some? then value else default
    }
  }

  /** `str.isspace()` on one ASCII character: space, \t \n \v \f \r and the
      four information separators 0x1c-0x1f. */
  predicate IsSpace(c: char) {
    c == ' ' || (9 <= c as int <= 13) || (28 <= c as int <= 31)
  }

  predicate IsUpperChar(c: char) { 'A' <= c <= 'Z' }

  predicate IsLowerChar(c: char) { 'a' <= c <= 'z' }

  function LowerChar(c: char): (d: char)
    ensures !IsUpperChar(d)
    ensures !IsUpperChar(c) ==> d == c
    ensures IsSpace(d) == IsSpace(c)
  {
    if IsUpperChar(c) then (c as int + 32) as char else c
  }

  /** `s.lower()` */
  function Lower(s: string): (r: string)
    ensures |r| == |s|
    ensures forall i :: 0 <= i < |s| ==> r[i] == LowerChar(s[i])
  {
    seq(|s|, i requires 0 <= i < |s| => LowerChar(s[i]))
  }

  predicate NoUpper(s: string) {
    forall i :: 0 <= i < |s| ==> !IsUpperChar(s[i])
  }

  lemma LowerOfNoUpper(s: string)
    requires NoUpper(s)
    ensures Lower(s) == s
  {
  }

  /** `s.startswith(p)` */
  predicate StartsWith(s: string, p: string) {
    |p| <= |s| && s[..|p|] == p
  }

  lemma StartsWithSelf(s: string)
    ensures StartsWith(s, s)
  {
  }

  lemma StartsWithAppend(s: string, t: string, p: string)
    requires StartsWith(s, p)
    ensures StartsWith(s + t, p)
  {
    assert (s + t)[..|p|] == s[..|p|];
  }

  lemma PrefixOfConcat(a: string, b: string)
    ensures StartsWith(a + b, a)
  {
    assert (a + b)[..|a|] == a;
  }

  /** `s.endswith(p)` */
  predicate EndsWith(s: string, p: string) {
    |p| <= |s| && s[|s| - |p|..] == p
  }

  lemma EndsWithAppend(s: string, t: string)
    ensures EndsWith(s + t, t)
  {
    assert (s + t)[|s|..] == t;
  }

  /** Python's `sub in s`. */
  predicate Contains(s: string, sub: string)
    decreases |s|
  {
    StartsWith(s, sub) || (|s| > 0 && Contains(s[1..], sub))
  }

  predicate OccursAt(s: string, sub: string, i: int) {
    0 <= i && i + |sub| <= |s| && s[i..i + |sub|] == sub
  }

  /** Any position holding `sub` makes `Contains` true. */
  lemma {:induction false} ContainsAt(s: string, sub: string, i: int)
    requires OccursAt(s, sub, i)
    ensures Contains(s, sub)
    decreases i
  {
    if i > 0 {
      assert s[1..][i - 1..i - 1 + |sub|] == s[i..i + |sub|];
      ContainsAt(s[1..], sub, i - 1);
    }
  }

  /** `Contains` is true only when some position holds `sub`. */
  lemma {:induction false} ContainsOccurs(s: string, sub: string) returns (i: nat)
    requires Contains(s, sub)
    ensures OccursAt(s, sub, i)
    decreases |s|
  {
    if StartsWith(s, sub) {
      i := 0;
    } else {
      var k := ContainsOccurs(s[1..], sub);
      assert s[k + 1..k + 1 + |sub|] == s[1..][k..k + |sub|];
      i := k + 1;
    }
  }

  /** A substring stays a substring when text is added on either side. */
  lemma ContainsWithin(pre: string, s: string, post: string, sub: string)
    requires Contains(s, sub)
    ensures Contains(pre + s + post, sub)
  {
    var i := ContainsOccurs(s, sub);
    assert (pre + s + post)[|pre| + i..|pre| + i + |sub|] == s[i..i + |sub|];
    ContainsAt(pre + s + post, sub, |pre| + i);
  }

  lemma ContainsLeft(s: string, post: string, sub: string)
    requires Contains(s, sub)
    ensures Contains(s + post, sub)
  {
    var i := ContainsOccurs(s, sub);
    assert (s + post)[i..i + |sub|] == s[i..i + |sub|];
    ContainsAt(s + post, sub, i);
  }

  lemma ContainsRight(pre: string, s: string, sub: string)
    requires Contains(s, sub)
    ensures Contains(pre + s, sub)
  {
    var i := ContainsOccurs(s, sub);
    assert (pre + s)[|pre| + i..|pre| + i + |sub|] == s[i..i + |sub|];
    ContainsAt(pre + s, sub, |pre| + i);
  }

  /** Every string contains itself. */
  lemma ContainsSelf(s: string)
    ensures Contains(s, s)
  {
    assert OccursAt(s, s, 0);
    ContainsAt(s, s, 0);
  }

  /** `s.lstrip()` */
  function TrimLeft(s: string): string {
    if |s| > 0 && IsSpace(s[0]) then TrimLeft(s[1..]) else s
  }

  /** `lstrip` removes a prefix made only of whitespace and stops at the first
      other character. */
  lemma {:induction false} TrimLeftSpec(s: string)
    ensures var r := TrimLeft(s);
      |r| <= |s| && r == s[|s| - |r|..] &&
      (r == [] || !IsSpace(r[0])) &&
      forall i :: 0 <= i < |s| - |r| ==> IsSpace(s[i])
  {
    if |s| > 0 && IsSpace(s[0]) {
      TrimLeftSpec(s[1..]);
    }
  }

  /** `s.rstrip()` */
  function TrimRight(s: string): string {
    if |s| > 0 && IsSpace(s[|s| - 1]) then TrimRight(s[..|s| - 1]) else s
  }

  /** `rstrip` removes a suffix made only of whitespace and stops at the last
      other character. */
  lemma {:induction false} TrimRightSpec(s: string)
    ensures var r := TrimRight(s);
      |r| <= |s| && r == s[..|r|] &&
      (r == [] || !IsSpace(r[|r| - 1])) &&
      forall i :: |r| <= i < |s| ==> IsSpace(s[i])
  {
    if |s| > 0 && IsSpace(s[|s| - 1]) {
      TrimRightSpec(s[..|s| - 1]);
    }
  }

  /** `s.strip()` */
  function Strip(s: string): string {
    TrimRight(TrimLeft(s))
  }

  /** A stripped string neither starts nor ends with whitespace. */
  lemma StripTrimmed(s: string)
    ensures var r := Strip(s);
      |r| <= |s| && (r == [] || (!IsSpace(r[0]) && !IsSpace(r[|r| - 1])))
  {
    TrimLeftSpec(s);
    TrimRightSpec(TrimLeft(s));
  }

  lemma StripOfTrimmed(s: string)
    requires s == [] || (!IsSpace(s[0]) && !IsSpace(s[|s| - 1]))
    ensures Strip(s) == s
  {
  }

  /** A whole `s` of whitespace strips to the empty string, and only then. */
  lemma StripEmptyIffBlank(s: string)
    ensures Strip(s) == [] <==> forall i :: 0 <= i < |s| ==> IsSpace(s[i])
  {
    var t := TrimLeft(s);
    TrimLeftSpec(s);
    TrimRightSpec(t);
    if Strip(s) == [] {
      assert t == [];
    } else {
      assert !IsSpace(Strip(s)[0]);
      assert Strip(s)[0] == t[0] == s[|s| - |t|];
    }
  }

  predicate IsWord(w: string) {
    |w| > 0 && forall i :: 0 <= i < |w| ==> !IsSpace(w[i])
  }

  /** The end of the run of non-whitespace that starts at `i`. */
  function WordEnd(s: string, i: nat): (e: nat)
    requires i <= |s|
    ensures i <= e <= |s|
    ensures forall k :: i <= k < e ==> !IsSpace(s[k])
    ensures e == |s| || IsSpace(s[e])
    decreases |s| - i
  {
    if i < |s| && !IsSpace(s[i]) then WordEnd(s, i + 1) else i
  }

  /** The words of `s[i..]`. */
  function WordsFrom(s: string, i: nat): (ws: seq<string>)
    requires i <= |s|
    ensures forall k :: 0 <= k < |ws| ==> IsWord(ws[k])
    decreases |s| - i
  {
    if i == |s| then []
    else if IsSpace(s[i]) then WordsFrom(s, i + 1)
    else
      var e := WordEnd(s, i);
      [s[i..e]] + WordsFrom(s, e)
  }

  /** `s.split()`: the maximal runs of non-whitespace, in order. */
  function Words(s: string): seq<string> {
    WordsFrom(s, 0)
  }

  /** `sep.join(parts)` */
  function JoinWith(sep: string, parts: seq<string>): (r: string)
    ensures |parts| == 1 ==> r == parts[0]
  {
    if |parts| == 0 then ""
    else if |parts| == 1 then parts[0]
    else parts[0] + sep + JoinWith(sep, parts[1..])
  }

  /** Each part occurs in `sep.join(parts)`. */
  lemma {:induction false} JoinWithContains(sep: string, parts: seq<string>, k: nat)
    requires k < |parts|
    ensures Contains(JoinWith(sep, parts), parts[k])
    decreases |parts|
  {
    if |parts| == 1 {
      ContainsSelf(parts[0]);
    } else if k == 0 {
      ContainsSelf(parts[0]);
      ContainsWithin([], parts[0], sep + JoinWith(sep, parts[1..]), parts[0]);
      assert [] + parts[0] + (sep + JoinWith(sep, parts[1..])) == JoinWith(sep, parts);
    } else {
      JoinWithContains(sep, parts[1..], k - 1);
      ContainsWithin(parts[0] + sep, JoinWith(sep, parts[1..]), [], parts[k]);
      assert parts[0] + sep + JoinWith(sep, parts[1..]) + [] == JoinWith(sep, parts);
    }
  }

  predicate NoChar(s: string, c: char) {
    forall i :: 0 <= i < |s| ==> s[i] != c
  }

  /** `s.split(c)` for a one-character separator: the pieces between the
      separators, empty ones included, so there is always at least one. */
  function SplitOn(s: string, c: char): (parts: seq<string>)
    ensures |parts| >= 1
  {
    if s == [] then [""]
    else if s[0] == c then [""] + SplitOn(s[1..], c)
    else
      var rest := SplitOn(s[1..], c);
      [[s[0]] + rest[0]] + rest[1..]
  }

  lemma {:induction false} SplitOnPlain(w: string, c: char)
    requires NoChar(w, c)
    ensures SplitOn(w, c) == [w]
  {
    if w != [] {
      SplitOnPlain(w[1..], c);
      assert [w[0]] + w[1..] == w;
    }
  }

  lemma {:induction false} SplitOnPrefix(w: string, c: char, t: string)
    requires NoChar(w, c)
    ensures SplitOn(w + [c] + t, c) == [w] + SplitOn(t, c)
  {
    if w == [] {
      assert w + [c] + t == [c] + t;
      assert ([c] + t)[1..] == t;
    } else {
      var s := w + [c] + t;
      assert s[1..] == w[1..] + [c] + t;
      SplitOnPrefix(w[1..], c, t);
      assert [w[0]] + w[1..] == w;
    }
  }

  /** Splitting a join on its separator gives the parts back, provided no
      part holds the separator. */
  lemma {:induction false} SplitJoinRoundTrip(parts: seq<string>, c: char)
    requires |parts| >= 1
    requires forall k :: 0 <= k < |parts| ==> NoChar(parts[k], c)
    ensures SplitOn(JoinWith([c], parts), c) == parts
  {
    if |parts| == 1 {
      SplitOnPlain(parts[0], c);
    } else {
      SplitJoinRoundTrip(parts[1..], c);
      SplitOnPrefix(parts[0], c, JoinWith([c], parts[1..]));
      assert [parts[0]] + parts[1..] == parts;
    }
  }

  /** `" ".join(s.split())`: whitespace runs become one space, ends trimmed. */
  function CollapseSpaces(s: string): string {
    JoinWith(" ", Words(s))
  }

  lemma {:induction false} WordEndShift(a: string, b: string, k: nat)
    requires k <= |b|
    ensures WordEnd(a + b, |a| + k) == |a| + WordEnd(b, k)
    decreases |b| - k
  {
    if k < |b| {
      assert (a + b)[|a| + k] == b[k];
      if !IsSpace(b[k]) {
        WordEndShift(a, b, k + 1);
      }
    }
  }

  /** The words of a suffix do not depend on what precedes it. */
  lemma {:induction false} WordsFromShift(a: string, b: string, k: nat)
    requires k <= |b|
    ensures WordsFrom(a + b, |a| + k) == WordsFrom(b, k)
    decreases |b| - k
  {
    if k < |b| {
      assert (a + b)[|a| + k] == b[k];
      if IsSpace(b[k]) {
        WordsFromShift(a, b, k + 1);
      } else {
        var e := WordEnd(b, k);
        WordEndShift(a, b, k);
        assert (a + b)[|a| + k..|a| + e] == b[k..e];
        WordsFromShift(a, b, e);
      }
    }
  }

  lemma {:induction false} WordEndOfWord(w: string, rest: string, k: nat)
    requires IsWord(w) && k <= |w|
    requires rest == [] || IsSpace(rest[0])
    ensures WordEnd(w + rest, k) == |w|
    decreases |w| - k
  {
    if k < |w| {
      assert (w + rest)[k] == w[k];
      WordEndOfWord(w, rest, k + 1);
    } else if rest != [] {
      assert (w + rest)[k] == rest[0];
    }
  }

  lemma WordsOfWord(w: string, rest: string)
    requires IsWord(w)
    requires rest == [] || IsSpace(rest[0])
    ensures Words(w + rest) == [w] + Words(rest)
  {
    assert (w + rest)[0] == w[0];
    WordEndOfWord(w, rest, 0);
    assert (w + rest)[0..|w|] == w;
    WordsFromShift(w, rest, 0);
  }

  lemma WordsOfSpace(s: string)
    ensures Words(" " + s) == Words(s)
  {
    WordsFromShift(" ", s, 0);
  }

  /** Splitting a space-joined list of words gives the words back. */
  lemma {:induction false} WordsOfJoin(ws: seq<string>)
    requires forall i :: 0 <= i < |ws| ==> IsWord(ws[i])
    ensures Words(JoinWith(" ", ws)) == ws
    decreases |ws|
  {
    if |ws| == 1 {
      WordsOfWord(ws[0], []);
      assert ws[0] + [] == ws[0];
    } else if |ws| > 1 {
      var rest := JoinWith(" ", ws[1..]);
      assert JoinWith(" ", ws) == ws[0] + (" " + rest);
      WordsOfWord(ws[0], " " + rest);
      WordsOfSpace(rest);
      WordsOfJoin(ws[1..]);
    }
  }

  lemma CollapseIdempotent(s: string)
    ensures CollapseSpaces(CollapseSpaces(s)) == CollapseSpaces(s)
  {
    WordsOfJoin(Words(s));
  }

  /** A space-joined list of words neither starts nor ends with whitespace. */
  lemma {:induction false} JoinOfWordsTrimmed(ws: seq<string>)
    requires forall i :: 0 <= i < |ws| ==> IsWord(ws[i])
    ensures var r := JoinWith(" ", ws);
      r == [] || (!IsSpace(r[0]) && !IsSpace(r[|r| - 1]))
    decreases |ws|
  {
    if |ws| > 1 {
      JoinOfWordsTrimmed(ws[1..]);
    }
  }

  /** Every character of a word of `s[i..]` is a character of `s`. */
  lemma {:induction false} WordCharsFrom(s: string, i: nat, k: int, j: int) returns (m: nat)
    requires i <= |s|
    requires 0 <= k < |WordsFrom(s, i)| && 0 <= j < |WordsFrom(s, i)[k]|
    ensures m < |s| && s[m] == WordsFrom(s, i)[k][j]
    decreases |s| - i
  {
    if IsSpace(s[i]) {
      m := WordCharsFrom(s, i + 1, k, j);
    } else {
      var e := WordEnd(s, i);
      if k == 0 {
        m := i + j;
      } else {
        m := WordCharsFrom(s, e, k - 1, j);
      }
    }
  }

  /** Every character of a space-join is a space or a character of a part. */
  lemma {:induction false} JoinCharsFrom(parts: seq<string>, k: int) returns (i: nat, j: nat)
    requires 0 <= k < |JoinWith(" ", parts)|
    ensures JoinWith(" ", parts)[k] != ' ' ==>
      i < |parts| && j < |parts[i]| && parts[i][j] == JoinWith(" ", parts)[k]
    decreases |parts|
  {
    i, j := 0, 0;
    var c := JoinWith(" ", parts)[k];
    if |parts| == 1 {
      j := k;
    } else if |parts| > 1 {
      var r := JoinWith(" ", parts[1..]);
      assert JoinWith(" ", parts) == parts[0] + " " + r;
      if k < |parts[0]| {
        j := k;
      } else if k > |parts[0]| {
        assert r[k - |parts[0]| - 1] == c;
        var i', j' := JoinCharsFrom(parts[1..], k - |parts[0]| - 1);
        i, j := i' + 1, j';
      }
    }
  }

  /** Characters of `CollapseSpaces(s)` are spaces or characters of `s`. */
  lemma CollapseCharsFrom(s: string, k: int) returns (m: nat)
    requires 0 <= k < |CollapseSpaces(s)|
    ensures CollapseSpaces(s)[k] != ' ' ==> m < |s| && s[m] == CollapseSpaces(s)[k]
  {
    m := 0;
    var i, j := JoinCharsFrom(Words(s), k);
    if CollapseSpaces(s)[k] != ' ' {
      m := WordCharsFrom(s, 0, i, j);
    }
  }

  /** `s.replace(a, b)` for single characters. */
  function ReplaceChar(s: string, a: char, b: char): (r: string)
    ensures |r| == |s|
    ensures forall i :: 0 <= i < |s| ==> r[i] == (if s[i] == a then b else s[i])
  {
    seq(|s|, i requires 0 <= i < |s| => if s[i] == a then b else s[i])
  }

  lemma ReplaceAbsent(s: string, a: char, b: char)
    requires a !in s
    ensures ReplaceChar(s, a, b) == s
  {
  }

  function HasUpper(s: string): bool {
    exists i :: 0 <= i < |s| && IsUpperChar(s[i])
  }

  function HasLower(s: string): bool {
    exists i :: 0 <= i < |s| && IsLowerChar(s[i])
  }

  /** `s.isupper()`: some cased character, and none of them lower-case. */
  predicate IsUpper(s: string) {
    HasUpper(s) && !HasLower(s)
  }

  function DigitChar(d: nat): (c: char)
    requires d < 10
    ensures '0' <= c <= '9'
  {
    ('0' as int + d) as char
  }

  /** `str(n)` for a natural number. */
  function NatToString(n: nat): (s: string)
    ensures |s| > 0
    ensures forall i :: 0 <= i < |s| ==> '0' <= s[i] <= '9'
  {
    if n < 10 then [DigitChar(n)] else NatToString(n / 10) + [DigitChar(n % 10)]
  }

  /** The value of a string of decimal digits. */
  function DigitsValue(s: string): nat
    requires forall i :: 0 <= i < |s| ==> '0' <= s[i] <= '9'
  {
    if s == [] then 0
    else DigitsValue(s[..|s| - 1]) * 10 + (s[|s| - 1] as int - '0' as int)
  }

  /** Reading back the digits of `str(n)` gives `n`. */
  lemma {:induction false} NatToStringRoundTrip(n: nat)
    ensures DigitsValue(NatToString(n)) == n
  {
    if n >= 10 {
      var s := NatToString(n);
      assert s[..|s| - 1] == NatToString(n / 10);
      NatToStringRoundTrip(n / 10);
    }
  }

  /** `str(i)` for any integer. */
  function IntToString(i: int): (s: string)
    ensures i < 0 <==> (|s| > 0 && s[0] == '-')
  {
    if i < 0 then "-" + NatToString(-i) else NatToString(i)
  }
}
