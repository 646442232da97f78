/**
 * Class-name extraction of `StringSourceCompiler.compile`: the first match of
 * the pattern `class\s+([$_a-zA-Z][$_a-zA-Z0-9]*)\s*` found by `Matcher.find()`,
 * whose group 1 is the class name.
 *
 * The ghost predicates state what a regular-expression match IS; the functions
 * compute the leftmost match by scanning, and their contracts tie the two.
 */
module ClassName {
  import opened Wrappers

  /** Java's `\s` without UNICODE_CHARACTER_CLASS: `[ \t\n\x0B\f\r]`. */
  predicate IsSpace(c: char)
    ensures IsSpace(c) <==> c == ' ' || '\t' <= c <= '\r'
    ensures IsSpace(c) ==> !IsIdentPart(c)
  {
    c == ' ' || c == '\t' || c == '\n' || c == '\U{B}' || c == '\U{C}' || c == '\r'
  }

  /** The class `[$_a-zA-Z]` that opens the name group. */
  predicate IsIdentStart(c: char)
    ensures IsIdentStart(c) ==> c < '\U{80}' && !('0' <= c <= '9')
  {
    c == '$' || c == '_' || 'a' <= c <= 'z' || 'A' <= c <= 'Z'
  }

  /** The class `[$_a-zA-Z0-9]` of the rest of the name group. */
  predicate IsIdentPart(c: char)
    ensures IsIdentStart(c) ==> IsIdentPart(c)
    ensures IsIdentPart(c) ==> c < '\U{80}'
  {
    IsIdentStart(c) || '0' <= c <= '9'
  }

  /** The literal that opens the pattern; it has no word boundary before it. */
  const Keyword: string := "class"

  // ---------------------------------------------------------------------------
  // Reference semantics of the pattern
  // ---------------------------------------------------------------------------

  /** `s[i..]` starts with the literal `class`. */
  ghost predicate KeywordAt(s: string, i: nat) {
    i + |Keyword| <= |s| && s[i..i + |Keyword|] == Keyword
  }

  /** Every character of `s[from..to]` is a `\s` character. */
  ghost predicate AllSpace(s: string, from: nat, to: nat)
    requires from <= to <= |s|
  {
    forall j :: from <= j < to ==> IsSpace(s[j])
  }

  /** Every character of `s[from..to]` is in `[$_a-zA-Z0-9]`. */
  ghost predicate AllIdentPart(s: string, from: nat, to: nat)
    requires from <= to <= |s|
  {
    forall j :: from <= j < to ==> IsIdentPart(s[j])
  }

  /**
   * The pattern matches starting at `i`: `class`, then one or more `\s`
   * characters, then a character of `[$_a-zA-Z]` at some `k` (the trailing
   * `[$_a-zA-Z0-9]*\s*` can always match the empty string).
   */
  ghost predicate MatchesAt(s: string, i: nat)
    ensures MatchesAt(s, i) ==> i + |Keyword| + 2 <= |s|
  {
    KeywordAt(s, i) &&
    exists k :: i + |Keyword| < k < |s| && IsIdentStart(s[k]) && AllSpace(s, i + |Keyword|, k)
  }

  /**
   * Group 1 of a match starting at `i` is `s[k..e]`: `k` is the first
   * character after `class\s+`, and the greedy `[$_a-zA-Z0-9]*` makes `e` the
   * end of the longest run of name characters.
   */
  ghost predicate IsNameGroup(s: string, i: nat, k: nat, e: nat)
    ensures IsNameGroup(s, i, k, e) ==> MatchesAt(s, i)
  {
    KeywordAt(s, i) && i + |Keyword| < k < e <= |s| &&
    AllSpace(s, i + |Keyword|, k) && IsIdentStart(s[k]) &&
    AllIdentPart(s, k, e) && (e == |s| || !IsIdentPart(s[e]))
  }

  /** No match of the pattern starts anywhere in `s[from..to]`. */
  ghost predicate NoMatchIn(s: string, from: nat, to: nat) {
    forall j: nat :: from <= j < to ==> !MatchesAt(s, j)
  }

  /** Where a match was found: the start of `class` and the bounds of group 1. */
  datatype ClassMatch = ClassMatch(start: nat, nameStart: nat, nameEnd: nat)

  /** `m` is the match `Matcher.find()` reports on `s`: the leftmost one, with its group. */
  ghost predicate IsFirstMatch(s: string, m: ClassMatch) {
    IsNameGroup(s, m.start, m.nameStart, m.nameEnd) && NoMatchIn(s, 0, m.start)
  }

  // ---------------------------------------------------------------------------
  // The scan
  // ---------------------------------------------------------------------------

  /** The end of the run of `\s` characters that starts at `j`. */
  function SpaceRunEnd(s: string, j: nat): (r: nat)
    requires j <= |s|
    ensures j <= r <= |s|
    ensures AllSpace(s, j, r)
    ensures r == |s| || !IsSpace(s[r])
    decreases |s| - j
  {
    if j < |s| && IsSpace(s[j]) then SpaceRunEnd(s, j + 1) else j
  }

  /** The end of the run of `[$_a-zA-Z0-9]` characters that starts at `j`. */
  function IdentRunEnd(s: string, j: nat): (r: nat)
    requires j <= |s|
    ensures j <= r <= |s|
    ensures AllIdentPart(s, j, r)
    ensures r == |s| || !IsIdentPart(s[r])
    decreases |s| - j
  {
    if j < |s| && IsIdentPart(s[j]) then IdentRunEnd(s, j + 1) else j
  }

  /**
   * Tries the pattern at `i` alone: the match with its group when the
   * pattern matches there, and nothing exactly when it does not.
   */
  function MatchAt(s: string, i: nat): (r: Option<ClassMatch>)
    ensures r.Some? <==> MatchesAt(s, i)
    ensures r.Some? ==> r.value.start == i && IsNameGroup(s, i, r.value.nameStart, r.value.nameEnd)
  {
    var afterKeyword := i + |Keyword|;
    if afterKeyword < |s| && s[i..afterKeyword] == Keyword && IsSpace(s[afterKeyword]) then
      var k := SpaceRunEnd(s, afterKeyword);
      if k < |s| && IsIdentStart(s[k]) then
        Some(ClassMatch(i, k, IdentRunEnd(s, k)))
      else
        NoMatchPastSpaces(s, i, k);
        None
    else
      NoMatchWithoutSpace(s, i);
      None
  }

  /** After `class`, a `\s` run that ends at `k` without a name start means no match at `i`. */
  lemma NoMatchPastSpaces(s: string, i: nat, k: nat)
    requires KeywordAt(s, i) && i + |Keyword| <= k <= |s|
    requires AllSpace(s, i + |Keyword|, k)
    requires k == |s| || (!IsSpace(s[k]) && !IsIdentStart(s[k]))
    ensures !MatchesAt(s, i)
  {
    forall k' | i + |Keyword| < k' < |s| && AllSpace(s, i + |Keyword|, k')
      ensures !IsIdentStart(s[k'])
    {
      if k' < k {
        assert IsSpace(s[k']);
      }
    }
  }

  /** Without `class` followed by a `\s` character at `i`, the pattern does not match at `i`. */
  lemma NoMatchWithoutSpace(s: string, i: nat)
    requires !(i + |Keyword| < |s| && s[i..i + |Keyword|] == Keyword && IsSpace(s[i + |Keyword|]))
    ensures !MatchesAt(s, i)
  {
    forall k | i + |Keyword| < k < |s| && AllSpace(s, i + |Keyword|, k)
      ensures !KeywordAt(s, i) || !IsIdentStart(s[k])
    {
    }
  }

  /** The leftmost match starting at `from` or later, as `find` scans forward. */
  function FindFrom(s: string, from: nat): (r: Option<ClassMatch>)
    requires from <= |s|
    ensures r.Some? ==> from <= r.value.start && NoMatchIn(s, from, r.value.start)
    ensures r.Some? ==> IsNameGroup(s, r.value.start, r.value.nameStart, r.value.nameEnd)
    ensures r.None? ==> NoMatchIn(s, from, |s| + 1)
    decreases |s| - from
  {
    match MatchAt(s, from)
    case Some(m) => Some(m)
    case None =>
      if from == |s| then None else FindFrom(s, from + 1)
  }

  /** A match needs the five characters of `class`, so none starts past `|s| - 5`. */
  lemma NoMatchBeyond(s: string, j: nat)
    requires j > |s|
    ensures !MatchesAt(s, j)
  {
  }

  /** `Matcher.find()` on the whole input: the first match, if any. */
  function Find(s: string): (r: Option<ClassMatch>)
    ensures r.Some? ==> IsFirstMatch(s, r.value)
    ensures r.None? <==> forall j: nat :: !MatchesAt(s, j)
  {
    var r := FindFrom(s, 0);
    if r.None? then
      assert forall j: nat :: !MatchesAt(s, j) by {
        forall j: nat ensures !MatchesAt(s, j) {
          if j > |s| { NoMatchBeyond(s, j); }
        }
      }
      r
    else
      assert MatchesAt(s, r.value.start);
      r
  }

  /**
   * The class name `compile` extracts (lines 33-40): group 1 of the first
   * match, or `IllegalArgumentException("No valid class")` when there is none.
   */
  function ExtractClassName(source: string): (r: Result<string, JavaException>)
    ensures r.Failure? <==> forall j: nat :: !MatchesAt(source, j)
    ensures r.Failure? ==> r.error == IllegalArgumentException("No valid class")
    ensures r.Success? ==>
      exists m :: IsFirstMatch(source, m) && r.value == source[m.nameStart..m.nameEnd]
  {
    match Find(source)
    case Some(m) => Success(source[m.nameStart..m.nameEnd])
    case None => Failure(IllegalArgumentException("No valid class"))
  }

  // ---------------------------------------------------------------------------
  // Properties of the extracted name
  // ---------------------------------------------------------------------------

  /** A match at a given start has exactly one group 1: `\s+` and `[$_a-zA-Z]` are disjoint, and the run is greedy. */
  lemma NameGroupUnique(s: string, i: nat, k: nat, e: nat, k': nat, e': nat)
    requires IsNameGroup(s, i, k, e) && IsNameGroup(s, i, k', e')
    ensures k == k' && e == e'
  {
    assert !IsSpace(s[k]) && !IsSpace(s[k']);
    assert k == k';
    assert e <= e' by {
      if e < |s| { assert !IsIdentPart(s[e]); }
    }
    assert e' <= e by {
      if e' < |s| { assert !IsIdentPart(s[e']); }
    }
  }

  /**
   * The converse of the scan: whenever the pattern's first match in `source`
   * starts at `i` with group 1 at `source[k..e]`, extraction returns exactly
   * that text.
   */
  lemma ExtractionFollowsPattern(source: string, i: nat, k: nat, e: nat)
    requires IsNameGroup(source, i, k, e) && NoMatchIn(source, 0, i)
    ensures ExtractClassName(source) == Success(source[k..e])
  {
    assert MatchesAt(source, i);
    var m := Find(source).value;
    assert MatchesAt(source, m.start);
    assert m.start == i by {
      assert !(m.start < i);
      assert !(i < m.start);
    }
    NameGroupUnique(source, i, k, e, m.nameStart, m.nameEnd);
  }

  /** The extracted name is a Java-style identifier: `[$_a-zA-Z][$_a-zA-Z0-9]*`. */
  lemma ExtractedNameIsIdentifier(source: string)
    ensures ExtractClassName(source).Success? ==>
      var name := ExtractClassName(source).value;
      |name| > 0 && IsIdentStart(name[0]) && forall t :: 0 < t < |name| ==> IsIdentPart(name[t])
  {
    if Find(source).Some? {
      var m := Find(source).value;
      var name := source[m.nameStart..m.nameEnd];
      assert name[0] == source[m.nameStart];
      forall t | 0 < t < |name| ensures IsIdentPart(name[t]) {
        assert name[t] == source[m.nameStart + t];
      }
    }
  }

  /**
   * The extracted name is the longest possible run: it sits in `source` right
   * after a `\s` character, and the character after it, if any, is not a
   * name character.
   */
  lemma ExtractedNameIsMaximal(source: string)
    ensures Find(source).Some? ==>
      var m := Find(source).value;
      && 0 < m.nameStart <= m.nameEnd <= |source|
      && ExtractClassName(source).value == source[m.nameStart..m.nameEnd]
      && IsSpace(source[m.nameStart - 1])
      && (m.nameEnd == |source| || !IsIdentPart(source[m.nameEnd]))
  {
    if Find(source).Some? {
      var m := Find(source).value;
      assert IsSpace(source[m.nameStart - 1]);
    }
  }

  /** The extracted name comes from the leftmost occurrence: no earlier position starts a match. */
  lemma ExtractedNameIsLeftmost(source: string, j: nat)
    ensures MatchesAt(source, j) ==> Find(source).Some? && Find(source).value.start <= j
    ensures ExtractClassName(source).Success? ==>
      Find(source).Some? &&
      ExtractClassName(source).value == source[Find(source).value.nameStart..Find(source).value.nameEnd]
  {
  }

  /** Without a word boundary, `class` inside a longer word still matches. */
  lemma MatchInsideWord()
    ensures ExtractClassName("subclass Foo") == Success("Foo")
  {
    var s := "subclass Foo";
    assert IsNameGroup(s, 3, 9, 12);
    assert NoMatchIn(s, 0, 3) by {
      forall j: nat | j < 3 ensures !MatchesAt(s, j) {
        assert s[j..j + 5][0] == s[j] != Keyword[0];
      }
    }
    ExtractionFollowsPattern(s, 3, 9, 12);
    assert s[9..12] == "Foo";
  }

  /** A source text in which `class` never occurs is refused. */
  lemma NoKeywordIsRefused(source: string)
    requires forall j: nat :: !KeywordAt(source, j)
    ensures ExtractClassName(source) == Failure(IllegalArgumentException("No valid class"))
  {
  }

  /** An interface declaration has no `class` token, so `compile` refuses it. */
  lemma InterfaceIsRefused()
    ensures ExtractClassName("interface I {}").Failure?
  {
    var s := "interface I {}";
    forall j: nat ensures !KeywordAt(s, j) {
      if j + 5 <= |s| {
        if j == 7 {
          assert s[j..j + 5][1] == s[8] != Keyword[1];
        } else {
          assert s[j..j + 5][0] == s[j] != Keyword[0];
        }
      }
    }
    NoKeywordIsRefused(s);
  }
}
