/** The Python string operations the wizard relies on, over fixed character
    sets: `strip`/`rstrip` over space, tab, '\n', '\r', '\v' and '\f',
    `isdigit` over the ASCII digits, `title` over ASCII letters, `replace`,
    `startswith` and `splitlines` on '\n' line breaks. */
module Text {

  /** The whitespace set that `strip` removes in this model. */
  predicate IsSpace(c: char) {
    c == ' ' || c == '\t' || c == '\n' || c == '\r' || c == '\U{000B}' || c == '\U{000C}'
  }

  predicate IsDigit(c: char) { '0' <= c <= '9' }
  predicate IsLower(c: char) { 'a' <= c <= 'z' }
  predicate IsUpper(c: char) { 'A' <= c <= 'Z' }

  /** Python's "cased" characters, ASCII only. */
  predicate IsLetter(c: char) { IsLower(c) || IsUpper(c) }

  function ToUpper(c: char): char {
    if IsLower(c) then (c as int - 32) as char else c
  }

  function ToLower(c: char): char {
    if IsUpper(c) then (c as int + 32) as char else c
  }

  /** Every character of `s` is whitespace (vacuously true of ""). */
  predicate AllSpace(s: string) {
    forall i :: 0 <= i < |s| ==> IsSpace(s[i])
  }

  /** `str.isdigit()`: non-empty and made of digits only. */
  predicate IsDigits(s: string) {
    |s| > 0 && forall i :: 0 <= i < |s| ==> IsDigit(s[i])
  }

  /** `s.startswith(p)`. */
  predicate StartsWith(s: string, p: string) {
    |p| <= |s| && s[..|p|] == p
  }

  /** `lstrip()`: drops the leading whitespace and nothing else. */
  function LStrip(s: string): (r: string)
    ensures |r| <= |s| && r == s[|s| - |r|..]
    ensures AllSpace(s[..|s| - |r|])
    ensures r == [] || !IsSpace(r[0])
  {
    if s != [] && IsSpace(s[0]) then LStrip(s[1..]) else s
  }

  /** `rstrip()`: drops the trailing whitespace and nothing else. */
  function RStrip(s: string): (r: string)
    ensures |r| <= |s| && r == s[..|r|]
    ensures AllSpace(s[|r|..])
    ensures r == [] || !IsSpace(r[|r| - 1])
  {
    if s != [] && IsSpace(s[|s| - 1]) then RStrip(s[..|s| - 1]) else s
  }

  /** `r` is the slice of `s` from `i`, with only whitespace before and
      after it. */
  predicate MiddleSlice(s: string, i: int, r: string) {
    0 <= i <= |s| - |r| && r == s[i..i + |r|] && AllSpace(s[..i]) && AllSpace(s[i + |r|..])
  }

  /** `strip()`: both ends. The result is a middle slice of the input with
      only whitespace cut on either side; it is empty exactly for
      all-whitespace input, and otherwise starts and ends with a non-space
      character. */
  function Strip(s: string): (r: string)
    ensures |r| <= |s|
    ensures exists i :: MiddleSlice(s, i, r)
    ensures r == [] <==> AllSpace(s)
    ensures r == [] || (!IsSpace(r[0]) && !IsSpace(r[|r| - 1]))
  {
    StripEnds(s);
    var l := LStrip(s);
    SliceOfSlice(s, l, RStrip(l));
    RStrip(l)
  }

  /** A prefix cut from a suffix, each trimming only whitespace, is a
      middle slice. */
  lemma SliceOfSlice(s: string, l: string, r: string)
    requires |l| <= |s| && l == s[|s| - |l|..] && AllSpace(s[..|s| - |l|])
    requires |r| <= |l| && r == l[..|r|] && AllSpace(l[|r|..])
    ensures MiddleSlice(s, |s| - |l|, r)
  {
    var i := |s| - |l|;
    assert s[i + |r|..] == l[|r|..];
  }

  lemma StripEnds(s: string)
    ensures RStrip(LStrip(s)) == [] <==> AllSpace(s)
  {
    var l := LStrip(s);
    var r := RStrip(l);
    var p := |s| - |l|;
    if r == [] {
      assert l[|r|..] == l;
      assert l == [];
      assert s[..p] == s;
    } else {
      assert l[0] == r[0];
      assert s[p] == l[0];
    }
  }

  /** Stripping is idempotent. */
  lemma StripIdempotent(s: string)
    ensures Strip(Strip(s)) == Strip(s)
  {
    var t := Strip(s);
    if t != [] {
      assert LStrip(t) == t;
      assert RStrip(t) == t;
    }
  }

  /** `s.replace(a, b)` for single characters: every `a` becomes `b`. */
  function ReplaceChar(s: string, a: char, b: char): string {
    seq(|s|, i requires 0 <= i < |s| => if s[i] == a then b else s[i])
  }

  /** `s.replace(pat, "")`: occurrences are found left to right and do not
      overlap, exactly as Python's `str.replace` scans. */
  function RemoveAll(s: string, pat: string): (r: string)
    requires |pat| > 0
    ensures |r| <= |s|
    decreases |s|
  {
    if |s| < |pat| then s
    else if s[..|pat|] == pat then RemoveAll(s[|pat|..], pat)
    else [s[0]] + RemoveAll(s[1..], pat)
  }

  /** `s` with every character of `d` deleted. */
  function Without(s: string, d: set<char>): string {
    if s == [] then [] else (if s[0] in d then [] else [s[0]]) + Without(s[1..], d)
  }

  lemma {:induction false} WithoutAppend(a: string, b: string, d: set<char>)
    ensures Without(a + b, d) == Without(a, d) + Without(b, d)
  {
    if a == [] {
      assert a + b == b;
    } else {
      var h := if a[0] in d then [] else [a[0]];
      assert (a + b)[1..] == a[1..] + b;
      assert (a + b)[0] == a[0];
      assert Without(a + b, d) == h + Without(a[1..] + b, d);
      WithoutAppend(a[1..], b, d);
    }
  }

  lemma {:induction false} WithoutAll(a: string, d: set<char>)
    requires forall i :: 0 <= i < |a| ==> a[i] in d
    ensures Without(a, d) == []
  {
    if a != [] {
      WithoutAll(a[1..], d);
    }
  }

  /** Removing a pattern made only of characters from `d` keeps every
      character outside `d`, in order: only marker characters disappear. */
  lemma {:induction false} RemoveAllKeepsOthers(s: string, pat: string, d: set<char>)
    requires |pat| > 0
    requires forall i :: 0 <= i < |pat| ==> pat[i] in d
    ensures Without(RemoveAll(s, pat), d) == Without(s, d)
    decreases |s|
  {
    if |s| < |pat| {
    } else if s[..|pat|] == pat {
      assert s == s[..|pat|] + s[|pat|..];
      WithoutAppend(s[..|pat|], s[|pat|..], d);
      WithoutAll(s[..|pat|], d);
      RemoveAllKeepsOthers(s[|pat|..], pat, d);
    } else {
      assert ([s[0]] + RemoveAll(s[1..], pat))[1..] == RemoveAll(s[1..], pat);
      RemoveAllKeepsOthers(s[1..], pat, d);
    }
  }

  /** No two adjacent `c` characters. */
  predicate NoDoubled(s: string, c: char) {
    forall i :: 0 <= i < |s| - 1 ==> !(s[i] == c && s[i + 1] == c)
  }

  lemma {:induction false} RemoveDoubledHead(s: string, c: char)
    requires s != [] && s[0] != c
    ensures RemoveAll(s, [c, c]) != [] && RemoveAll(s, [c, c])[0] == s[0]
  {
  }

  /** After removing every "cc", no "cc" is left: a kept `c` is never
      followed by another `c`, or it would have started a match. */
  lemma {:induction false} RemoveAllNoDoubled(s: string, c: char)
    ensures NoDoubled(RemoveAll(s, [c, c]), c)
    decreases |s|
  {
    var pat := [c, c];
    if |s| < 2 {
    } else if s[..2] == pat {
      RemoveAllNoDoubled(s[2..], c);
    } else {
      var rest := RemoveAll(s[1..], pat);
      RemoveAllNoDoubled(s[1..], c);
      if s[0] == c {
        assert s[1] != c;
        RemoveDoubledHead(s[1..], c);
      }
      var r := [s[0]] + rest;
      forall i | 0 <= i < |r| - 1
        ensures !(r[i] == c && r[i + 1] == c)
      {
        if i > 0 {
          assert r[i] == rest[i - 1] && r[i + 1] == rest[i];
        }
      }
    }
  }

  /** One step of `str.title()`: a letter is upper-cased when it starts a
      word (no cased character before it) and lower-cased otherwise. */
  function TitleChar(c: char, afterLetter: bool): char {
    if !IsLetter(c) then c else if afterLetter then ToLower(c) else ToUpper(c)
  }

  /** `str.title()`: a letter is upper-cased when the character before it
      is not a letter, lower-cased when it is; other characters are kept. */
  function Title(s: string): (r: string)
    ensures |r| == |s|
    ensures forall i :: 0 <= i < |s| ==> (IsLetter(r[i]) <==> IsLetter(s[i]))
  {
    seq(|s|, i requires 0 <= i < |s| => TitleChar(s[i], i > 0 && IsLetter(s[i - 1])))
  }

  /** Title case is stable: applying `str.title()` twice is applying it
      once. */
  lemma TitleIdempotent(s: string)
    ensures Title(Title(s)) == Title(s)
  {
    var t := Title(s);
    forall i | 0 <= i < |s|
      ensures Title(t)[i] == t[i]
    {
      var after := i > 0 && IsLetter(s[i - 1]);
      assert i > 0 ==> (IsLetter(t[i - 1]) <==> IsLetter(s[i - 1]));
      assert t[i] == TitleChar(s[i], after);
    }
  }

  /** The scan `str.title()` performs: left to right, remembering whether
      the previous character was a letter. */
  function TitleScan(s: string, afterLetter: bool): (r: string)
    ensures |r| == |s|
  {
    if s == [] then [] else [TitleChar(s[0], afterLetter)] + TitleScan(s[1..], IsLetter(s[0]))
  }

  /** Each character of the scan is the step applied with the letter
      test of the character before it. */
  lemma {:induction false} TitleScanAt(s: string, afterLetter: bool)
    ensures forall i {:trigger TitleScan(s, afterLetter)[i]} :: 0 <= i < |s| ==>
      TitleScan(s, afterLetter)[i] == TitleChar(s[i], if i == 0 then afterLetter else IsLetter(s[i - 1]))
  {
    if s != [] {
      TitleScanAt(s[1..], IsLetter(s[0]));
      var r := TitleScan(s, afterLetter);
      assert forall i :: 0 < i < |s| ==> r[i] == TitleScan(s[1..], IsLetter(s[0]))[i - 1];
    }
  }

  /** The left-to-right scan computes the position-wise definition. */
  lemma TitleScanAgrees(s: string)
    ensures TitleScan(s, false) == Title(s)
  {
    TitleScanAt(s, false);
    var r, t := TitleScan(s, false), Title(s);
    assert |r| == |t|;
    forall i | 0 <= i < |s|
      ensures r[i] == t[i]
    {
    }
  }

  /** Index of the first '\n' at or after `i`, or `|s|` if there is none. */
  function LineEnd(s: string, i: nat): (r: nat)
    requires i <= |s|
    ensures i <= r <= |s|
    ensures forall k :: i <= k < r ==> s[k] != '\n'
    ensures r < |s| ==> s[r] == '\n'
    decreases |s| - i
  {
    if i == |s| || s[i] == '\n' then i else LineEnd(s, i + 1)
  }

  /** `str.splitlines()` on '\n' breaks: the pieces between breaks, with no
      trailing empty piece after a final '\n' and none at all for "". */
  function SplitLines(s: string): (r: seq<string>)
    ensures forall j, k :: 0 <= j < |r| && 0 <= k < |r[j]| ==> r[j][k] != '\n'
    decreases |s|
  {
    if s == [] then []
    else
      var e := LineEnd(s, 0);
      if e == |s| then [s] else [s[..e]] + SplitLines(s[e + 1..])
  }

  /** Each line followed by '\n', concatenated. */
  function Unlines(ls: seq<string>): string {
    if ls == [] then [] else ls[0] + "\n" + Unlines(ls[1..])
  }

  /** Joining the lines back gives the text, with a '\n' added when the text
      did not end with one. */
  lemma {:induction false} SplitLinesRoundTrip(s: string)
    ensures s == [] || s[|s| - 1] == '\n' ==> Unlines(SplitLines(s)) == s
    ensures s != [] && s[|s| - 1] != '\n' ==> Unlines(SplitLines(s)) == s + "\n"
    decreases |s|
  {
    if s != [] {
      var e := LineEnd(s, 0);
      if e < |s| {
        SplitLinesRoundTrip(s[e + 1..]);
        assert s == s[..e] + "\n" + s[e + 1..];
      }
    }
  }

  lemma {:induction false} LineEndOfUnlines(l: string, rest: string)
    requires forall k :: 0 <= k < |l| ==> l[k] != '\n'
    ensures LineEnd(l + "\n" + rest, 0) == |l|
  {
    var s := l + "\n" + rest;
    LineEndFrom(s, 0, |l|);
  }

  lemma {:induction false} LineEndFrom(s: string, i: nat, e: nat)
    requires i <= e < |s| && s[e] == '\n'
    requires forall k :: i <= k < e ==> s[k] != '\n'
    ensures LineEnd(s, i) == e
    decreases e - i
  {
    if i < e {
      LineEndFrom(s, i + 1, e);
    }
  }

  /** Splitting joined lines that hold no '\n' gives the lines back. */
  lemma {:induction false} UnlinesRoundTrip(ls: seq<string>)
    requires forall j, k :: 0 <= j < |ls| && 0 <= k < |ls[j]| ==> ls[j][k] != '\n'
    ensures SplitLines(Unlines(ls)) == ls
  {
    if ls != [] {
      var s := Unlines(ls);
      var rest := Unlines(ls[1..]);
      assert s == ls[0] + "\n" + rest;
      LineEndOfUnlines(ls[0], rest);
      assert s[|ls[0]| + 1..] == rest;
      assert s[..|ls[0]|] == ls[0];
      UnlinesRoundTrip(ls[1..]);
      if |ls[0]| + 1 == |s| {
        assert rest == [];
        assert SplitLines(rest) == [];
        assert ls[1..] == [];
      }
    }
  }

  /** `x` occurs somewhere in `s`. */
  predicate Infix(x: string, s: string) {
    exists p :: 0 <= p <= |s| - |x| && OccursAt(x, s, p)
  }

  predicate OccursAt(x: string, s: string, p: nat)
    requires p + |x| <= |s|
  {
    s[p..p + |x|] == x
  }

  lemma InfixOf(a: string, x: string, b: string)
    ensures Infix(x, a + x + b)
  {
    assert OccursAt(x, a + x + b, |a|);
  }

  /** Occurrence is transitive: inside `m` inside `s` is inside `s`. */
  lemma InfixWithin(x: string, m: string, s: string)
    requires Infix(x, m) && Infix(m, s)
    ensures Infix(x, s)
  {
    var p :| 0 <= p <= |m| - |x| && OccursAt(x, m, p);
    var q :| 0 <= q <= |s| - |m| && OccursAt(m, s, q);
    assert s[q..q + |m|] == m;
    forall k | 0 <= k < |x|
      ensures s[q + p + k] == x[k]
    {
      assert s[q..q + |m|][p + k] == s[q + p + k];
      assert m[p..p + |x|][k] == m[p + k];
    }
    assert s[q + p..q + p + |x|] == x;
    assert OccursAt(x, s, q + p);
  }

  /** A string with no whitespace at either end is its own strip. */
  lemma StripUnchanged(s: string)
    requires s == [] || (!IsSpace(s[0]) && !IsSpace(s[|s| - 1]))
    ensures Strip(s) == s
  {
  }

  /** A string with no trailing whitespace is its own right strip. */
  lemma RStripUnchanged(s: string)
    requires s == [] || !IsSpace(s[|s| - 1])
    ensures RStrip(s) == s
  {
  }

  /** A final '\n' adds no line: text without one splits like the same
      text with one. */
  lemma SplitLinesFinalBreak(s: string)
    requires s != [] && s[|s| - 1] != '\n'
    ensures SplitLines(s + "\n") == SplitLines(s)
  {
    SplitLinesRoundTrip(s);
    UnlinesRoundTrip(SplitLines(s));
  }

  /** Text without the pattern's first character passes through removal
      unchanged. */
  lemma {:induction false} RemoveAllFree(a: string, rest: string, pat: string)
    requires |pat| > 0
    requires forall i :: 0 <= i < |a| ==> a[i] != pat[0]
    ensures RemoveAll(a + rest, pat) == a + RemoveAll(rest, pat)
  {
    if a != [] {
      var s := a + rest;
      if |s| < |pat| {
        assert RemoveAll(rest, pat) == rest;
      } else {
        assert s[0] == a[0] && s[..|pat|][0] == s[0];
        assert s[1..] == a[1..] + rest;
        RemoveAllFree(a[1..], rest, pat);
        assert [a[0]] + (a[1..] + RemoveAll(rest, pat)) == a + RemoveAll(rest, pat);
      }
    } else {
      assert a + rest == rest;
    }
  }

  /** Text in which the pattern does not occur is left unchanged. */
  lemma {:induction false} RemoveAllAbsent(s: string, pat: string)
    requires |pat| > 0 && !Infix(pat, s)
    ensures RemoveAll(s, pat) == s
    decreases |s|
  {
    if |s| >= |pat| {
      assert !OccursAt(pat, s, 0);
      if Infix(pat, s[1..]) {
        var p :| 0 <= p <= |s[1..]| - |pat| && OccursAt(pat, s[1..], p);
        assert s[1..][p..p + |pat|] == s[p + 1..p + 1 + |pat|];
        assert OccursAt(pat, s, p + 1);
        assert false;
      }
      RemoveAllAbsent(s[1..], pat);
    }
  }

  /** An occurrence at the front is removed. */
  lemma RemoveAllAt(rest: string, pat: string)
    requires |pat| > 0
    ensures RemoveAll(pat + rest, pat) == RemoveAll(rest, pat)
  {
    var s := pat + rest;
    assert s[..|pat|] == pat && s[|pat|..] == rest;
  }
}

