/**
 * The Python string operations the core relies on: `str.strip()`,
 * `str.split(sep)` and `str.capitalize()`.
 */
module Strings {

  datatype Option<T> = None | Some(value: T)

  /**
   * The characters Python 2.7's `unicode.isspace()` accepts (the Unicode 5.2
   * tables, which still count U+180E), and which `strip()` removes.
   */
  predicate IsSpace(c: char) {
    || ('\t' <= c <= '\r')
    || ('\U{1c}' <= c <= '\U{1f}')
    || c == ' ' || c == '\U{85}' || c == '\U{a0}' || c == '\U{1680}' || c == '\U{180e}'
    || ('\U{2000}' <= c <= '\U{200a}')
    || c == '\U{2028}' || c == '\U{2029}' || c == '\U{202f}' || c == '\U{205f}' || c == '\U{3000}'
  }

  /** No digit, ASCII letter, comma or dot is whitespace. */
  lemma TokenCharNotSpace(c: char)
    requires '0' <= c <= '9' || 'a' <= c <= 'z' || 'A' <= c <= 'Z' || c == ',' || c == '.'
    ensures !IsSpace(c)
  {
  }

  /** The number of whitespace characters `s` starts with. */
  function LeadingSpaces(s: string): (n: nat)
    ensures n <= |s|
    ensures forall k :: 0 <= k < n ==> IsSpace(s[k])
    ensures n == |s| || !IsSpace(s[n])
  {
    if s != [] && IsSpace(s[0]) then 1 + LeadingSpaces(s[1..]) else 0
  }

  /** `s.lstrip()`: drops the leading whitespace and nothing else. */
  function TrimStart(s: string): (r: string)
    ensures |r| <= |s| && r == s[|s| - |r|..]
    ensures forall i :: 0 <= i < |s| - |r| ==> IsSpace(s[i])
    ensures r == [] || !IsSpace(r[0])
  {
    s[LeadingSpaces(s)..]
  }

  /** `s.rstrip()`: drops the trailing whitespace and nothing else. */
  function TrimEnd(s: string): (r: string)
    ensures |r| <= |s| && r == s[..|r|]
    ensures forall i :: |r| <= i < |s| ==> IsSpace(s[i])
    ensures r == [] || !IsSpace(r[|r| - 1])
  {
    if s != [] && IsSpace(s[|s| - 1]) then TrimEnd(s[..|s| - 1]) else s
  }

  /** `r` is what is left of `s` once its first `lead` characters and some whitespace at its end are cut off. */
  predicate CutsTo(s: string, lead: nat, r: string) {
    && lead + |r| <= |s|
    && r == s[lead..lead + |r|]
    && (forall k :: 0 <= k < lead ==> IsSpace(s[k]))
    && (forall k :: lead + |r| <= k < |s| ==> IsSpace(s[k]))
  }

  /**
   * `s.strip()`: the input with its leading and trailing whitespace removed,
   * and nothing else: the middle of `s` after its leading whitespace, up to
   * a last character that is not whitespace.
   */
  function Strip(s: string): (r: string)
    ensures r == [] || (!IsSpace(r[0]) && !IsSpace(r[|r| - 1]))
    ensures CutsTo(s, LeadingSpaces(s), r)
  {
    var t := TrimStart(s);
    var r := TrimEnd(t);
    TrailingCut(s, LeadingSpaces(s), r);
    r
  }

  /** `rstrip` applied to the suffix of `s` from `i` keeps a middle slice of `s` followed only by whitespace. */
  lemma TrailingCut(s: string, i: nat, r: string)
    requires i <= |s| && r == TrimEnd(s[i..])
    ensures i + |r| <= |s| && r == s[i..i + |r|]
    ensures forall k :: i + |r| <= k < |s| ==> IsSpace(s[k])
  {
    var t := s[i..];
    assert r == t[..|r|];
    forall k | i + |r| <= k < |s|
      ensures IsSpace(s[k])
    {
      assert s[k] == t[k - i];
    }
  }

  /** Stripping a string that neither starts nor ends with whitespace changes nothing. */
  lemma StripUnpadded(s: string)
    requires s == [] || (!IsSpace(s[0]) && !IsSpace(s[|s| - 1]))
    ensures Strip(s) == s
  {
  }

  /** `sub` occurs in `s` starting at index `i`. */
  predicate OccursAt(s: string, sub: string, i: int) {
    0 <= i && i + |sub| <= |s| && s[i..i + |sub|] == sub
  }

  /** `sub in s`. */
  predicate Contains(s: string, sub: string) {
    exists i :: 0 <= i <= |s| && OccursAt(s, sub, i)
  }

  /** `s.find(sub, from)`, as an option. */
  function IndexFrom(s: string, sub: string, from: nat): (r: Option<nat>)
    requires sub != []
    ensures r.Some? ==> from <= r.value && OccursAt(s, sub, r.value)
    ensures forall j :: from <= j && (r.None? || j < r.value) ==> !OccursAt(s, sub, j)
    decreases |s| - from
  {
    if from + |sub| > |s| then None
    else if s[from..from + |sub|] == sub then Some(from)
    else IndexFrom(s, sub, from + 1)
  }

  /** `sep.join(parts)`: the parts with `sep` between each two; it starts with the first part. */
  function Join(parts: seq<string>, sep: string): (r: string)
    ensures parts != [] ==> parts[0] <= r
  {
    if parts == [] then []
    else if |parts| == 1 then parts[0]
    else parts[0] + sep + Join(parts[1..], sep)
  }

  /** No occurrence of `sub` inside a prefix that ends before the first occurrence in `s`. */
  lemma NoOccurrenceBefore(s: string, sub: string, i: nat)
    requires sub != [] && i <= |s|
    requires forall j :: 0 <= j < i ==> !OccursAt(s, sub, j)
    ensures !Contains(s[..i], sub)
  {
    forall j | 0 <= j <= i
      ensures !OccursAt(s[..i], sub, j)
    {
      if j + |sub| <= i {
        assert s[..i][j..j + |sub|] == s[j..j + |sub|];
        assert !OccursAt(s, sub, j);
      }
    }
  }

  /**
   * `s.split(sep)`: the pieces between the non-overlapping occurrences of
   * `sep`, scanned from the left. Joining the pieces gives `s` back, and no
   * piece contains `sep`.
   */
  function Split(s: string, sep: string): (parts: seq<string>)
    requires sep != []
    ensures |parts| >= 1
    ensures Join(parts, sep) == s
    ensures forall k :: 0 <= k < |parts| ==> !Contains(parts[k], sep)
    decreases |s|
  {
    match IndexFrom(s, sep, 0)
    case None =>
      NoOccurrenceBefore(s, sep, |s|);
      assert s[..|s|] == s;
      [s]
    case Some(i) =>
      NoOccurrenceBefore(s, sep, i);
      var rest := Split(s[i + |sep|..], sep);
      var parts := [s[..i]] + rest;
      assert parts[1..] == rest;
      assert s == s[..i] + sep + s[i + |sep|..] by {
        assert s[i..i + |sep|] == sep;
      }
      parts
  }

  /**
   * A separator whose first character appears nowhere else in it (`","`,
   * `"build"`): an occurrence can never straddle the start of another one.
   */
  predicate HeadUnique(sep: string) {
    sep != [] && forall k :: 0 < k < |sep| ==> sep[k] != sep[0]
  }

  /** The first occurrence of such a separator after a piece without it is right after that piece. */
  lemma FirstOccurrenceAfter(a: string, sep: string, b: string)
    requires HeadUnique(sep) && !Contains(a, sep)
    ensures IndexFrom(a + sep + b, sep, 0) == Some(|a|)
  {
    var s := a + sep + b;
    assert OccursAt(s, sep, |a|) by {
      assert s[|a|..|a| + |sep|] == sep;
    }
    forall j | 0 <= j < |a|
      ensures !OccursAt(s, sep, j)
    {
      if j + |sep| <= |a| {
        assert s[j..j + |sep|] == a[j..j + |sep|];
        assert !OccursAt(a, sep, j);
      } else {
        var k := |a| - j;
        assert s[j + k] == sep[0] != sep[k];
      }
    }
  }

  /** Splitting a join gives the pieces back, when no piece contains the separator. */
  lemma {:induction false} SplitJoin(parts: seq<string>, sep: string)
    requires HeadUnique(sep) && parts != []
    requires forall k :: 0 <= k < |parts| ==> !Contains(parts[k], sep)
    ensures Split(Join(parts, sep), sep) == parts
    decreases |parts|
  {
    if |parts| == 1 {
      assert !Contains(parts[0], sep);
    } else {
      var tail := Join(parts[1..], sep);
      var s := parts[0] + sep + tail;
      assert Join(parts, sep) == s;
      FirstOccurrenceAfter(parts[0], sep, tail);
      assert s[..|parts[0]|] == parts[0];
      assert s[|parts[0]| + |sep|..] == tail;
      assert Split(s, sep) == [parts[0]] + Split(tail, sep);
      SplitJoin(parts[1..], sep);
      assert parts == [parts[0]] + parts[1..];
    }
  }

  /** True of the ASCII lower-case letters. */
  predicate IsLower(c: char) { 'a' <= c <= 'z' }

  /** True of the ASCII upper-case letters. */
  predicate IsUpper(c: char) { 'A' <= c <= 'Z' }

  function ToUpper(c: char): char {
    if IsLower(c) then (c as int - 32) as char else c
  }

  function ToLower(c: char): char {
    if IsUpper(c) then (c as int + 32) as char else c
  }

  function LowerAll(s: string): (r: string)
    ensures |r| == |s|
  {
    seq(|s|, i requires 0 <= i < |s| => ToLower(s[i]))
  }

  /**
   * `s.capitalize()`: the first character upper-cased, every other one
   * lower-cased (ASCII letters only).
   */
  function Capitalize(s: string): (r: string)
    ensures |r| == |s|
    ensures r != [] ==> !IsLower(r[0])
    ensures forall i :: 0 < i < |r| ==> !IsUpper(r[i])
  {
    if s == [] then [] else [ToUpper(s[0])] + LowerAll(s[1..])
  }

  /** Capitalizing changes letter case only. */
  lemma CapitalizeKeepsLetters(s: string)
    ensures LowerAll(Capitalize(s)) == LowerAll(s)
  {
    if s != [] {
      assert ToLower(ToUpper(s[0])) == ToLower(s[0]);
      forall i | 0 < i < |s|
        ensures LowerAll(Capitalize(s))[i] == LowerAll(s)[i]
      {
        assert Capitalize(s)[i] == ToLower(s[i]);
      }
    }
  }

}
