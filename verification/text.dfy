/** Character classes and the Kotlin string operations the command parser uses:
    `split("\\s+")`, `trim`, `trimStart`, `isBlank`, `startsWith`,
    `substringAfter` and `contains`. Strings are sequences of code points.
 */
module Text {

  import opened Base

  /** A character matched by the regular expression class `\s` of
      `java.util.regex` (the `\\s+` split): space, tab, line feed, vertical
      tab, form feed and carriage return. */
  predicate IsRegexSpace(c: char)
  {
    c == ' ' || c == '\t' || c == '\n' || c == '\U{000B}' || c == '\U{000C}' || c == '\r'
  }

  /** Kotlin's `Char.isWhitespace` on the JVM (Java 21), used by `trim`,
      `trimStart` and `isBlank`: `Character.isWhitespace` or
      `Character.isSpaceChar`. It is wider than `\s`. */
  predicate IsSpace(c: char)
  {
    || IsRegexSpace(c)
    || ('\U{001C}' <= c <= '\U{001F}')
    || c == '\U{00A0}' || c == '\U{1680}'
    || ('\U{2000}' <= c <= '\U{200A}')
    || c == '\U{2028}' || c == '\U{2029}' || c == '\U{202F}'
    || c == '\U{205F}' || c == '\U{3000}'
  }

  /** `isBlank()`: empty or whitespace only. */
  predicate IsBlank(s: string)
  {
    forall i :: 0 <= i < |s| ==> IsSpace(s[i])
  }

  predicate StartsWith(s: string, prefix: string)
  {
    |prefix| <= |s| && s[..|prefix|] == prefix
  }

  /** `t` occurs in `s` starting at position `i`. */
  predicate OccursAt(s: string, t: string, i: nat)
  {
    i + |t| <= |s| && s[i..i + |t|] == t
  }

  /** `s.contains(t)`. */
  ghost predicate Contains(s: string, t: string)
  {
    exists i :: OccursAt(s, t, i)
  }

  /** Length of the longest prefix of `s` without a `\s` character. */
  function RegexSpaceIndex(s: string): (k: nat)
    ensures k <= |s|
    ensures forall i :: 0 <= i < k ==> !IsRegexSpace(s[i])
    ensures k < |s| ==> IsRegexSpace(s[k])
  {
    if |s| == 0 || IsRegexSpace(s[0]) then 0 else 1 + RegexSpaceIndex(s[1..])
  }

  /** `s.split(Regex("\\s+"))[0]`: the text before the first run of `\s`,
      the whole string when there is none, and "" when `s` starts with one. */
  function FirstWord(s: string): (w: string)
    ensures StartsWith(s, w)
    ensures forall i :: 0 <= i < |w| ==> !IsRegexSpace(w[i])
    ensures |w| < |s| ==> IsRegexSpace(s[|w|])
  {
    s[..RegexSpaceIndex(s)]
  }

  /** Number of leading whitespace characters. */
  function LeadingSpaces(s: string): (n: nat)
    ensures n <= |s|
    ensures forall i :: 0 <= i < n ==> IsSpace(s[i])
    ensures n < |s| ==> !IsSpace(s[n])
  {
    if |s| > 0 && IsSpace(s[0]) then 1 + LeadingSpaces(s[1..]) else 0
  }

  /** Number of trailing whitespace characters. */
  function TrailingSpaces(s: string): (n: nat)
    ensures n <= |s|
    ensures forall i :: |s| - n <= i < |s| ==> IsSpace(s[i])
    ensures n < |s| ==> !IsSpace(s[|s| - n - 1])
  {
    if |s| > 0 && IsSpace(s[|s| - 1]) then 1 + TrailingSpaces(s[..|s| - 1]) else 0
  }

  /** `trimStart()`. */
  function TrimStart(s: string): (r: string)
    ensures |r| <= |s| && r == s[|s| - |r|..]
    ensures forall i :: 0 <= i < |s| - |r| ==> IsSpace(s[i])
    ensures |r| > 0 ==> !IsSpace(r[0])
  {
    s[LeadingSpaces(s)..]
  }

  /** A non-empty text with no whitespace at either end, hence not blank. */
  predicate Trimmed(s: string)
  {
    |s| > 0 && !IsSpace(s[0]) && !IsSpace(s[|s| - 1])
  }

  /** `trim()`: `s` without its leading and trailing whitespace; blank
      exactly when `s` is. */
  function Trim(s: string): (r: string)
    ensures OccursAt(s, r, LeadingSpaces(s))
    ensures forall i :: LeadingSpaces(s) + |r| <= i < |s| ==> IsSpace(s[i])
    ensures |r| > 0 ==> Trimmed(r)
    ensures IsBlank(s) <==> r == []
  {
    var t := TrimStart(s);
    var r := t[..|t| - TrailingSpaces(t)];
    TrimShape(s, t, r);
    r
  }

  lemma TrimShape(s: string, t: string, r: string)
    requires t == TrimStart(s) && r == t[..|t| - TrailingSpaces(t)]
    ensures OccursAt(s, r, LeadingSpaces(s))
    ensures forall i :: LeadingSpaces(s) + |r| <= i < |s| ==> IsSpace(s[i])
    ensures |r| > 0 ==> Trimmed(r)
    ensures IsBlank(s) <==> r == []
  {
    var n := LeadingSpaces(s);
    assert t == s[n..];
    TrimTail(s[n..], r);
    OccursInSuffix(s, n, r, 0);
    TrimmedBlank(s, t, r);
  }

  /** Dropping the trailing whitespace of a text that does not start with
      whitespace leaves a trimmed prefix followed by whitespace only. */
  lemma TrimTail(t: string, r: string)
    requires |t| > 0 ==> !IsSpace(t[0])
    requires r == t[..|t| - TrailingSpaces(t)]
    ensures OccursAt(t, r, 0)
    ensures forall i :: |r| <= i < |t| ==> IsSpace(t[i])
    ensures |r| > 0 ==> Trimmed(r)
  {
    if |r| > 0 {
      assert r[0] == t[0];
      assert r[|r| - 1] == t[|t| - TrailingSpaces(t) - 1];
    }
  }

  lemma TrimmedBlank(s: string, t: string, r: string)
    requires t == TrimStart(s) && r == t[..|t| - TrailingSpaces(t)]
    ensures IsBlank(s) <==> r == []
  {
    if !IsBlank(s) {
      var k :| 0 <= k < |s| && !IsSpace(s[k]);
      assert t[k - (|s| - |t|)] == s[k];
      assert |t| > 0 && !IsSpace(t[0]);
    }
  }

  /** A text that neither starts nor ends with whitespace is its own trim. */
  lemma TrimOfTrimmed(s: string)
    requires Trimmed(s)
    ensures Trim(s) == s
  {
    assert LeadingSpaces(s) == 0;
    var r := Trim(s);
    assert |s| - 1 < |r|;
  }

  /** A non-blank trim has no whitespace at either end. */
  lemma TrimNonBlank(s: string)
    ensures !IsBlank(Trim(s)) ==> Trimmed(Trim(s))
  {
    var r := Trim(s);
    if !IsBlank(r) {
      assert |r| > 0;
    }
  }

  /** Trimming twice is trimming once. */
  lemma TrimIdempotent(s: string)
    ensures Trim(Trim(s)) == Trim(s)
  {
    var r := Trim(s);
    if |r| > 0 {
      TrimOfTrimmed(r);
    } else {
      assert LeadingSpaces(r) == 0;
    }
  }

  /** First position at which `d` occurs in `s`, if any. */
  function IndexOf(s: string, d: string): (k: Option<nat>)
    ensures k.Some? ==> OccursAt(s, d, k.value)
    ensures k.Some? ==> forall i :: 0 <= i < k.value ==> !OccursAt(s, d, i)
    ensures k.None? ==> !Contains(s, d)
  {
    if StartsWith(s, d) then Some(0)
    else if |s| == 0 then None
    else
      var k := IndexOf(s[1..], d);
      ShiftOccurs(s, d);
      match k
      case None =>
        assert !OccursAt(s, d, 0);
        None
      case Some(j) =>
        assert !OccursAt(s, d, 0);
        Some(j + 1)
  }

  lemma ShiftOccurs(s: string, d: string)
    requires |s| > 0
    ensures forall i: nat :: 1 <= i ==> (OccursAt(s, d, i) <==> OccursAt(s[1..], d, i - 1))
  {
    forall i: nat | 1 <= i
      ensures OccursAt(s, d, i) <==> OccursAt(s[1..], d, i - 1)
    {
      if i + |d| <= |s| {
        var a := s[i..i + |d|];
        var b := s[1..][i - 1..i - 1 + |d|];
        assert forall k :: 0 <= k < |d| ==> a[k] == s[i + k] == b[k];
        assert a == b;
      }
    }
  }

  /** `substringAfter(d)`: the text after the first occurrence of `d`, or
      the whole string when `d` does not occur. */
  function SubstringAfter(s: string, d: string): (r: string)
    ensures StartsWith(s, d) ==> r == s[|d|..]
    ensures !Contains(s, d) ==> r == s
    ensures |r| <= |s|
  {
    match IndexOf(s, d)
    case Some(k) => s[k + |d|..]
    case None => s
  }

  /** Elements joined with `sep` (`joinToString(sep)`). */
  function Join(parts: seq<string>, sep: string): string
  {
    if |parts| == 0 then []
    else if |parts| == 1 then parts[0]
    else parts[0] + sep + Join(parts[1..], sep)
  }

  /** Plain concatenation of the parts. */
  function Concat(parts: seq<string>): string
  {
    Join(parts, "")
  }

  /** Decimal rendering of a non-negative count. */
  function NatText(n: nat): (r: string)
    ensures |r| > 0
    ensures forall i :: 0 <= i < |r| ==> '0' <= r[i] <= '9'
  {
    var d := ['0' + (n % 10) as char];
    if n < 10 then d else NatText(n / 10) + d
  }

  /** The trim of a text is blank exactly when the text is. */
  lemma TrimBlank(s: string)
    ensures IsBlank(Trim(s)) <==> IsBlank(s)
  {
    var r := Trim(s);
    if |r| > 0 {
      assert !IsSpace(r[0]);
    }
  }

  /** An occurrence in a suffix is an occurrence in the whole text. */
  lemma OccursInSuffix(s: string, d: nat, t: string, i: nat)
    requires d <= |s| && OccursAt(s[d..], t, i)
    ensures OccursAt(s, t, d + i)
  {
    assert s[d + i..d + i + |t|] == s[d..][i..i + |t|];
  }

  /** The trim of a suffix is blank exactly when the suffix is, and sits in
      the whole text after the suffix's leading whitespace. */
  lemma TrimSuffix(s: string, d: nat)
    requires d <= |s|
    ensures IsBlank(Trim(s[d..])) <==> IsBlank(s[d..])
    ensures OccursAt(s, Trim(s[d..]), d + LeadingSpaces(s[d..]))
  {
    TrimBlank(s[d..]);
    OccursInSuffix(s, d, Trim(s[d..]), LeadingSpaces(s[d..]));
  }

  lemma ContainsInfix(a: string, t: string, b: string)
    ensures Contains(a + t + b, t)
  {
    assert OccursAt(a + t + b, t, |a|);
  }

  lemma {:induction false} ContainsTrans(s: string, t: string, u: string)
    requires Contains(s, t) && Contains(t, u)
    ensures Contains(s, u)
  {
    var i: nat :| OccursAt(s, t, i);
    var j: nat :| OccursAt(t, u, j);
    assert forall k :: i + j <= k < i + j + |u| ==> s[k] == t[k - i];
    assert s[i + j..i + j + |u|] == t[j..j + |u|];
    assert OccursAt(s, u, i + j);
  }

  /** Every part appears in the joined text. */
  lemma {:induction false} JoinContainsPart(parts: seq<string>, sep: string, k: nat)
    requires k < |parts|
    ensures Contains(Join(parts, sep), parts[k])
  {
    if |parts| == 1 {
      ContainsInfix([], parts[0], []);
      assert [] + parts[0] + [] == parts[0];
    } else if k == 0 {
      ContainsInfix([], parts[0], sep + Join(parts[1..], sep));
      assert [] + parts[0] + (sep + Join(parts[1..], sep)) == Join(parts, sep);
    } else {
      JoinContainsPart(parts[1..], sep, k - 1);
      ContainsInfix(parts[0] + sep, Join(parts[1..], sep), []);
      assert parts[0] + sep + Join(parts[1..], sep) + [] == Join(parts, sep);
      ContainsTrans(Join(parts, sep), Join(parts[1..], sep), parts[k]);
    }
  }
}
