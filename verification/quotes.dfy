/** Extraction of quoted groups from `/remind to` arguments: all successive,
    non-overlapping matches of the regular expression `["“”]([^"“”]*)["“”]`,
    scanned left to right, keeping the text between the quotes. Straight and
    curly quotes are interchangeable as opening and closing characters. */
module Quotes {

  predicate IsQuote(c: char)
  {
    c == '"' || c == '“' || c == '”'
  }

  predicate QuoteFree(s: string)
  {
    forall i :: 0 <= i < |s| ==> !IsQuote(s[i])
  }

  /** Position of the first quote character, or `|s|` when there is none. */
  function QuoteIndex(s: string): (k: nat)
    ensures k <= |s|
    ensures QuoteFree(s[..k])
    ensures k < |s| ==> IsQuote(s[k])
  {
    if |s| == 0 || IsQuote(s[0]) then 0 else 1 + QuoteIndex(s[1..])
  }

  /** `regex.findAll(s).map { it.groupValues[1] }`. A match opens at the
      first quote and closes at the next one (the group cannot contain a
      quote); scanning resumes after the closing quote. An opening quote
      with no closing quote after it starts no match, and no later position
      can start one either. */
  function Groups(s: string): (gs: seq<string>)
    ensures forall k :: 0 <= k < |gs| ==> QuoteFree(gs[k])
    decreases |s|
  {
    var i := QuoteIndex(s);
    if i == |s| then []
    else
      var rest := s[i + 1..];
      var j := QuoteIndex(rest);
      if j == |rest| then []
      else [rest[..j]] + Groups(rest[j + 1..])
  }

  /** One regular-expression match together with the unmatched text before it. */
  datatype Match = Match(lead: string, open: char, group: string, close: char)

  predicate WellFormed(m: Match)
  {
    QuoteFree(m.lead) && IsQuote(m.open) && QuoteFree(m.group) && IsQuote(m.close)
  }

  /** Text after the last match: it holds at most one quote character. */
  predicate Leftover(tail: string)
  {
    var k := QuoteIndex(tail);
    k == |tail| || QuoteFree(tail[k + 1..])
  }

  /** The text a sequence of matches and a leftover spell out. */
  function Spell(ms: seq<Match>, tail: string): string
  {
    if |ms| == 0 then tail
    else ms[0].lead + [ms[0].open] + ms[0].group + [ms[0].close] + Spell(ms[1..], tail)
  }

  function GroupTexts(ms: seq<Match>): (gs: seq<string>)
    ensures |gs| == |ms|
    ensures forall k :: 0 <= k < |ms| ==> gs[k] == ms[k].group
  {
    if |ms| == 0 then [] else [ms[0].group] + GroupTexts(ms[1..])
  }

  datatype Scan = Scan(matches: seq<Match>, tail: string)

  /** Every input splits into well-formed matches and a leftover whose groups
      are exactly those `Groups` extracts. */
  function Decompose(s: string): (d: Scan)
    ensures forall k :: 0 <= k < |d.matches| ==> WellFormed(d.matches[k])
    ensures Leftover(d.tail)
    ensures Spell(d.matches, d.tail) == s
    ensures GroupTexts(d.matches) == Groups(s)
    decreases |s|
  {
    var i := QuoteIndex(s);
    if i == |s| then
      assert Groups(s) == [];
      Scan([], s)
    else
      var rest := s[i + 1..];
      var j := QuoteIndex(rest);
      if j == |rest| then
        assert Groups(s) == [];
        UnclosedLeftover(s, i);
        Scan([], s)
      else
        var d := Decompose(rest[j + 1..]);
        var m := Match(s[..i], s[i], rest[..j], rest[j]);
        PrependMatch(s, m, d, i, j);
        assert Groups(s) == [m.group] + GroupTexts(d.matches);
        assert WellFormed(m);
        PrependWellFormed(m, d.matches);
        Scan([m] + d.matches, d.tail)
  }

  /** A text whose first quote is never closed is a leftover with no groups. */
  lemma UnclosedLeftover(s: string, i: nat)
    requires i == QuoteIndex(s) < |s|
    requires QuoteIndex(s[i + 1..]) == |s[i + 1..]|
    ensures Leftover(s)
  {
    var rest := s[i + 1..];
    assert rest[..|rest|] == rest;
  }

  lemma PrependMatch(s: string, m: Match, d: Scan, i: nat, j: nat)
    requires i < |s| && j < |s| - i - 1
    requires m == Match(s[..i], s[i], s[i + 1..][..j], s[i + 1..][j])
    requires Spell(d.matches, d.tail) == s[i + 1..][j + 1..]
    ensures Spell([m] + d.matches, d.tail) == s
    ensures GroupTexts([m] + d.matches) == [m.group] + GroupTexts(d.matches)
  {
    assert ([m] + d.matches)[1..] == d.matches;
    var rest := s[i + 1..];
    assert rest == rest[..j] + [rest[j]] + rest[j + 1..];
    assert s == s[..i] + [s[i]] + rest;
  }

  /** A match built from the first two quotes is well formed, and prepending
      it keeps every match well formed. */
  lemma PrependWellFormed(m: Match, ms: seq<Match>)
    requires WellFormed(m)
    requires forall k :: 0 <= k < |ms| ==> WellFormed(ms[k])
    ensures forall k :: 0 <= k < |[m] + ms| ==> WellFormed(([m] + ms)[k])
  {
    var all := [m] + ms;
    assert forall k :: 1 <= k < |all| ==> all[k] == ms[k - 1];
  }

  lemma QuoteIndexAfterFree(a: string, b: string)
    requires QuoteFree(a)
    ensures QuoteIndex(a + b) == |a| + QuoteIndex(b)
  {
    var s := a + b;
    var k := |a| + QuoteIndex(b);
    var q := QuoteIndex(s);
    assert forall i :: 0 <= i < k ==> !IsQuote(s[i]) by {
      assert forall i :: |a| <= i < k ==> s[i] == b[..QuoteIndex(b)][i - |a|];
    }
    assert forall i :: 0 <= i < q ==> !IsQuote(s[i]) by {
      assert forall i :: 0 <= i < q ==> s[i] == s[..q][i];
    }
    assert k < |s| ==> IsQuote(s[k]) by {
      if k < |s| {
        assert s[k] == b[QuoteIndex(b)];
      }
    }
    assert q <= k;
  }

  /** A leftover yields no group. */
  lemma LeftoverHasNoGroup(tail: string)
    requires Leftover(tail)
    ensures Groups(tail) == []
  {
    var i := QuoteIndex(tail);
    if i < |tail| {
      var rest := tail[i + 1..];
      assert QuoteIndex(rest) == |rest|;
    }
  }

  /** The scan takes a well-formed match as its first group and resumes
      right after its closing quote. */
  lemma GroupsOfMatch(m: Match, after: string)
    requires WellFormed(m)
    ensures Groups(m.lead + [m.open] + m.group + [m.close] + after) == [m.group] + Groups(after)
  {
    var quoted := [m.open] + m.group + [m.close] + after;
    assert m.lead + [m.open] + m.group + [m.close] + after == m.lead + quoted;
    GroupsAfterFree(m.lead, quoted);
    GroupsOfQuoted(m.open, m.group, m.close, after);
  }

  /** Quote-free text in front of a quote does not change the groups. */
  lemma GroupsAfterFree(lead: string, t: string)
    requires QuoteFree(lead)
    requires |t| > 0 && IsQuote(t[0])
    ensures Groups(lead + t) == Groups(t)
  {
    var s := lead + t;
    QuoteIndexAfterFree(lead, t);
    assert QuoteIndex(t) == 0;
    assert QuoteIndex(s) == |lead|;
    var rest := t[1..];
    assert s[|lead| + 1..] == rest;
    var j := QuoteIndex(rest);
    if j == |rest| {
      assert Groups(s) == [] == Groups(t);
    } else {
      assert Groups(s) == [rest[..j]] + Groups(rest[j + 1..]) == Groups(t);
    }
  }

  /** A text that opens with a quoted group yields that group first, and the
      scan resumes after the closing quote. */
  lemma GroupsOfQuoted(open: char, group: string, close: char, after: string)
    requires IsQuote(open) && QuoteFree(group) && IsQuote(close)
    ensures Groups([open] + group + [close] + after) == [group] + Groups(after)
  {
    var s := [open] + group + [close] + after;
    var rest := group + ([close] + after);
    assert s[1..] == rest;
    QuoteIndexAfterFree(group, [close] + after);
    assert QuoteIndex([close] + after) == 0;
    assert rest[..|group|] == group;
    assert rest[|group| + 1..] == after;
  }

  /** Conversely, whatever well-formed matches and leftover spell a text, the
      extracted groups are theirs: the scan is unique. */
  lemma {:induction false} GroupsOfSpelling(ms: seq<Match>, tail: string)
    requires forall k :: 0 <= k < |ms| ==> WellFormed(ms[k])
    requires Leftover(tail)
    ensures Groups(Spell(ms, tail)) == GroupTexts(ms)
  {
    if |ms| == 0 {
      LeftoverHasNoGroup(tail);
    } else {
      GroupsOfMatch(ms[0], Spell(ms[1..], tail));
      GroupsOfSpelling(ms[1..], tail);
    }
  }
}
