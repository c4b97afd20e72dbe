/** The document assembler of the PDF export: the plan text is split into
    lines and scanned forward once, with one buffer of pending bullet items,
    into a sequence of blocks. Page layout is not modelled; the blocks are
    what the document is built from. */
module PdfGenerator {
  import opened Common
  import opened Text

  /** One flowable of the document. Spacer heights are in points. */
  datatype Block =
    | Title(text: string)
    | Heading(text: string)
    | Para(text: string)
    | BulletList(items: seq<string>)
    | Spacer(height: real)

  /** Points per inch. */
  const Inch: real := 72.0
  /** The gap under the title: 0.2 inch. */
  const TitleGap: real := 0.2 * Inch
  /** The gap under a heading. */
  const HeadingGap: real := 4.0
  /** The gap under a bullet list, and the gap a blank line makes. */
  const ListGap: real := 6.0

  /** The title line of every document. */
  function TitleText(companyName: string): string {
    companyName + " — Business Plan"
  }

  /** `_split_lines`: one right-stripped line per line of the text. */
  function SplitPdfLines(text: string): (r: seq<string>)
    ensures |r| == |SplitLines(text)|
    ensures forall i :: 0 <= i < |r| ==> |r[i]| <= |SplitLines(text)[i]|
    ensures forall i :: 0 <= i < |r| ==>
      r[i] == SplitLines(text)[i][..|r[i]|] && AllSpace(SplitLines(text)[i][|r[i]|..]) &&
      (r[i] == [] || !IsSpace(r[i][|r[i]| - 1]))
  {
    var ls := SplitLines(text);
    seq(|ls|, i requires 0 <= i < |ls| => RStrip(ls[i]))
  }

  /** A stripped line that reads as a numbered heading: its first two
      characters (or its only one) are digits, or it is longer than two
      characters and starts with a digit and a period. */
  predicate IsHeadingText(line: string) {
    IsDigits(line[..if |line| < 2 then |line| else 2]) ||
    (|line| > 2 && IsDigit(line[0]) && line[1] == '.')
  }

  /** A stripped line that starts with one of the three bullet markers. */
  predicate IsBulletText(line: string) {
    StartsWith(line, "- ") || StartsWith(line, "* ") || StartsWith(line, "• ")
  }

  /** How the scanner reads one line. */
  datatype LineKind =
    | BlankLine
    | HeadingLine(text: string)
    | BulletLine(item: string)
    | ParaLine(text: string)

  /** The emphasis cleanup of a paragraph: every "**", then every "__". */
  function CleanParagraph(line: string): string {
    RemoveAll(RemoveAll(line, "**"), "__")
  }

  /** The classification of a stripped line, checked in the source's
      order: blank, then heading, then bullet, then paragraph. */
  function ClassifyStripped(line: string): (r: LineKind)
    ensures r.BlankLine? <==> line == []
    ensures r.HeadingLine? <==> line != [] && IsHeadingText(line)
    ensures r.BulletLine? <==> line != [] && !IsHeadingText(line) && IsBulletText(line)
    ensures r.HeadingLine? ==> r.text == line
    ensures r.BulletLine? ==> r.item == Strip(line[2..])
    ensures r.ParaLine? ==> r.text == CleanParagraph(line)
  {
    if line == [] then BlankLine
    else if IsHeadingText(line) then HeadingLine(line)
    else if IsBulletText(line) then BulletLine(Strip(line[2..]))
    else ParaLine(CleanParagraph(line))
  }

  /** One line of the loop in `generate_pdf`: the line is stripped, then
      classified; it is blank exactly when it is all whitespace. */
  function Classify(raw: string): (r: LineKind)
    ensures r.BlankLine? <==> AllSpace(raw)
    ensures r == ClassifyStripped(Strip(raw))
  {
    ClassifyStripped(Strip(raw))
  }

  /** The kind of every line, in order. The loop of `generate_pdf`
      classifies each line as it reaches it; classification is pure, so
      classifying first and scanning the kinds afterwards is the same. */
  function Kinds(lines: seq<string>): seq<LineKind> {
    Map(Classify, lines)
  }

  /** The scanner state: the story so far and the pending bullet items. */
  datatype Scan = Scan(story: seq<Block>, pending: seq<string>)

  /** `flush_bullets`: an empty buffer emits nothing; otherwise one list of
      the buffered items, in order, and its gap; the buffer is then empty. */
  function FlushBullets(sc: Scan): (r: Scan)
    ensures r.pending == []
    ensures sc.pending == [] ==> r.story == sc.story
    ensures sc.pending != [] ==> r.story == sc.story + [BulletList(sc.pending), Spacer(ListGap)]
  {
    if sc.pending == [] then sc else Scan(sc.story + [BulletList(sc.pending), Spacer(ListGap)], [])
  }

  /** The blocks a non-bullet line emits after the flush: a blank line one
      gap, a heading the heading and its gap, a paragraph the paragraph. */
  function LineBlocks(k: LineKind): seq<Block>
    requires !k.BulletLine?
  {
    match k
    case BlankLine => [Spacer(ListGap)]
    case HeadingLine(t) => [Heading(t), Spacer(HeadingGap)]
    case ParaLine(t) => [Para(t)]
  }

  /** One iteration of the loop: a bullet line only buffers its item; any
      other line flushes the buffer and then emits its blocks. */
  function ScanLine(sc: Scan, k: LineKind): (r: Scan)
    ensures k.BulletLine? ==> r.story == sc.story && r.pending == sc.pending + [k.item]
    ensures !k.BulletLine? ==> r.pending == [] && r.story == FlushBullets(sc).story + LineBlocks(k)
  {
    if k.BulletLine? then Scan(sc.story, sc.pending + [k.item])
    else Scan(FlushBullets(sc).story + LineBlocks(k), [])
  }

  /** The loop over all lines, left to right. The story only grows: what
      is emitted is never taken back. */
  function ScanLines(sc: Scan, kinds: seq<LineKind>): (r: Scan)
    ensures sc.story <= r.story
    decreases |kinds|
  {
    if kinds == [] then sc else ScanLines(ScanLine(sc, kinds[0]), kinds[1..])
  }

  /** After the loop the buffer holds items exactly when the last line is a
      bullet, or, with no lines, when it held items to begin with; this is
      why `generate_pdf` flushes once more after the loop. */
  lemma {:induction false} ScanLinesPending(sc: Scan, kinds: seq<LineKind>)
    ensures ScanLines(sc, kinds).pending == [] <==>
      (if kinds == [] then sc.pending == [] else !kinds[|kinds| - 1].BulletLine?)
    decreases |kinds|
  {
    if kinds != [] {
      ScanLinesPending(ScanLine(sc, kinds[0]), kinds[1..]);
      if |kinds| > 1 {
        assert kinds[1..][|kinds| - 2] == kinds[|kinds| - 1];
      }
    }
  }

  /** The story before the first line: the title and its gap. */
  function Start(companyName: string): Scan {
    Scan([Title(TitleText(companyName)), Spacer(TitleGap)], [])
  }

  /** `generate_pdf`'s story: the title and its gap, the scanned lines, and
      a final flush so that no pending bullet is lost. It is the title, its
      gap, then the reference layout of the lines (defined below). */
  function GeneratePdf(text: string, companyName: string): (r: seq<Block>)
    ensures r == [Title(TitleText(companyName)), Spacer(TitleGap)] + Layout(Kinds(SplitPdfLines(text)))
  {
    ScanMatchesLayout(Start(companyName).story, [], Kinds(SplitPdfLines(text)));
    FlushBullets(ScanLines(Start(companyName), Kinds(SplitPdfLines(text)))).story
  }

  // A reference layout, defined by grouping instead of by a buffer.

  /** The length of the run of bullet lines that starts the sequence. */
  function BulletRun(kinds: seq<LineKind>): (n: nat)
    ensures n <= |kinds|
    ensures forall i :: 0 <= i < n ==> kinds[i].BulletLine?
    ensures n < |kinds| ==> !kinds[n].BulletLine?
  {
    if kinds != [] && kinds[0].BulletLine? then 1 + BulletRun(kinds[1..]) else 0
  }

  /** The items of the bullet lines, in order. */
  function BulletItems(kinds: seq<LineKind>): seq<string> {
    if kinds == [] then []
    else (if kinds[0].BulletLine? then [kinds[0].item] else []) + BulletItems(kinds[1..])
  }

  /** Every maximal run of bullet lines is one list with its gap; every
      other line gives its own blocks. */
  function Layout(kinds: seq<LineKind>): seq<Block>
    decreases |kinds|
  {
    if kinds == [] then []
    else if kinds[0].BulletLine? then
      var n := BulletRun(kinds);
      [BulletList(BulletItems(kinds[..n])), Spacer(ListGap)] + Layout(kinds[n..])
    else LineBlocks(kinds[0]) + Layout(kinds[1..])
  }

  lemma {:induction false} BulletItemsAppend(a: seq<LineKind>, b: seq<LineKind>)
    ensures BulletItems(a + b) == BulletItems(a) + BulletItems(b)
  {
    if a == [] {
      assert a + b == b;
    } else {
      assert (a + b)[0] == a[0];
      assert (a + b)[1..] == a[1..] + b;
      BulletItemsAppend(a[1..], b);
    }
  }

  /** A leading bullet line extends the run that follows it by one. */
  lemma RunStep(kinds: seq<LineKind>)
    requires kinds != [] && kinds[0].BulletLine?
    ensures var n, m := BulletRun(kinds), BulletRun(kinds[1..]);
      n == 1 + m &&
      BulletItems(kinds[..n]) == [kinds[0].item] + BulletItems(kinds[1..][..m]) &&
      kinds[n..] == kinds[1..][m..]
  {
    var rest := kinds[1..];
    var n, m := BulletRun(kinds), BulletRun(rest);
    assert n == 1 + m;
    PrefixCons(kinds, n);
    BulletItemsAppend([kinds[0]], rest[..m]);
    assert BulletItems([kinds[0]]) == [kinds[0].item] by {
      assert [kinds[0]][1..] == [];
    }
  }

  /** A non-empty prefix is the head and a prefix of the tail. */
  lemma PrefixCons<T>(s: seq<T>, n: nat)
    requires 0 < n <= |s|
    ensures s[..n] == [s[0]] + s[1..][..n - 1]
    ensures s[n..] == s[1..][n - 1..]
  {
  }

  /** What the rest of the scan emits, by the reference layout, when
      `pending` items are buffered: they join the run of bullet lines that
      follows them. */
  function Resume(pending: seq<string>, kinds: seq<LineKind>): seq<Block> {
    if pending == [] then Layout(kinds)
    else
      var n := BulletRun(kinds);
      [BulletList(pending + BulletItems(kinds[..n])), Spacer(ListGap)] + Layout(kinds[n..])
  }

  lemma ResumeBullet(pending: seq<string>, kinds: seq<LineKind>)
    requires kinds != [] && kinds[0].BulletLine?
    ensures Resume(pending + [kinds[0].item], kinds[1..]) == Resume(pending, kinds)
  {
    var n, m := BulletRun(kinds), BulletRun(kinds[1..]);
    RunStep(kinds);
    var p := pending + [kinds[0].item];
    assert p + BulletItems(kinds[1..][..m]) == pending + BulletItems(kinds[..n]);
    assert Resume(p, kinds[1..]) == [BulletList(pending + BulletItems(kinds[..n])), Spacer(ListGap)] + Layout(kinds[n..]);
    if pending == [] {
      assert pending + BulletItems(kinds[..n]) == BulletItems(kinds[..n]);
      assert Layout(kinds) == [BulletList(BulletItems(kinds[..n])), Spacer(ListGap)] + Layout(kinds[n..]);
    }
  }

  lemma ResumeOther(pending: seq<string>, kinds: seq<LineKind>)
    requires kinds != [] && !kinds[0].BulletLine?
    ensures Resume(pending, kinds)
         == FlushBullets(Scan([], pending)).story + LineBlocks(kinds[0]) + Layout(kinds[1..])
  {
    assert BulletRun(kinds) == 0;
    assert kinds[..0] == [] && kinds[0..] == kinds;
    assert pending + [] == pending;
  }

  /** The buffered scan from any state agrees with the reference layout. */
  lemma {:induction false} ScanMatchesLayout(story: seq<Block>, pending: seq<string>, kinds: seq<LineKind>)
    ensures FlushBullets(ScanLines(Scan(story, pending), kinds)).story == story + Resume(pending, kinds)
    decreases |kinds|
  {
    if kinds == [] {
      assert pending + [] == pending;
    } else if kinds[0].BulletLine? {
      ScanMatchesLayout(story, pending + [kinds[0].item], kinds[1..]);
      ResumeBullet(pending, kinds);
    } else {
      var next := ScanLine(Scan(story, pending), kinds[0]);
      ScanMatchesLayout(next.story, [], kinds[1..]);
      ResumeOther(pending, kinds);
    }
  }

  /** Every document starts with the title and its 0.2-inch gap, whatever
      the text. */
  lemma TitleComesFirst(text: string, companyName: string)
    ensures |GeneratePdf(text, companyName)| >= 2
    ensures GeneratePdf(text, companyName)[0] == Title(companyName + " — Business Plan")
    ensures GeneratePdf(text, companyName)[1] == Spacer(14.4)
  {
    var doc := GeneratePdf(text, companyName);
    var rest := Layout(Kinds(SplitPdfLines(text)));
    assert doc == [Title(TitleText(companyName)), Spacer(TitleGap)] + rest;
    assert doc[0] == Title(TitleText(companyName));
    assert TitleGap == 14.4;
  }

  /** The items of all bullet lists, in order. */
  function ListedItems(blocks: seq<Block>): seq<string> {
    if blocks == [] then []
    else (if blocks[0].BulletList? then blocks[0].items else []) + ListedItems(blocks[1..])
  }

  lemma {:induction false} ListedItemsAppend(a: seq<Block>, b: seq<Block>)
    ensures ListedItems(a + b) == ListedItems(a) + ListedItems(b)
  {
    if a == [] {
      assert a + b == b;
    } else {
      assert (a + b)[0] == a[0];
      assert (a + b)[1..] == a[1..] + b;
      ListedItemsAppend(a[1..], b);
    }
  }

  /** No bullet is dropped or reordered: the lists of the layout hold
      exactly the items of the bullet lines, in order. */
  lemma {:induction false} NoBulletDropped(kinds: seq<LineKind>)
    ensures ListedItems(Layout(kinds)) == BulletItems(kinds)
    decreases |kinds|
  {
    if kinds != [] {
      if kinds[0].BulletLine? {
        var n := BulletRun(kinds);
        var head := [BulletList(BulletItems(kinds[..n])), Spacer(ListGap)];
        ListedItemsAppend(head, Layout(kinds[n..]));
        assert head[1..] == [Spacer(ListGap)];
        assert ListedItems(head) == BulletItems(kinds[..n]);
        NoBulletDropped(kinds[n..]);
        assert kinds == kinds[..n] + kinds[n..];
        BulletItemsAppend(kinds[..n], kinds[n..]);
      } else {
        ListedItemsAppend(LineBlocks(kinds[0]), Layout(kinds[1..]));
        assert ListedItems(LineBlocks(kinds[0])) == [];
        NoBulletDropped(kinds[1..]);
        assert BulletItems(kinds) == BulletItems(kinds[1..]);
      }
    }
  }

  /** Every list in the layout is non-empty and followed by its gap. */
  lemma {:induction false} ListsNonEmpty(kinds: seq<LineKind>)
    ensures forall i :: 0 <= i < |Layout(kinds)| && Layout(kinds)[i].BulletList? ==>
      Layout(kinds)[i].items != [] && i + 1 < |Layout(kinds)| && Layout(kinds)[i + 1] == Spacer(ListGap)
    decreases |kinds|
  {
    if kinds != [] {
      if kinds[0].BulletLine? {
        var n := BulletRun(kinds);
        ListsNonEmpty(kinds[n..]);
        assert BulletItems(kinds[..n]) != [] by {
          assert kinds[..n] == [kinds[0]] + kinds[..n][1..];
          BulletItemsAppend([kinds[0]], kinds[..n][1..]);
          assert [kinds[0]][1..] == [];
        }
      } else {
        ListsNonEmpty(kinds[1..]);
      }
    }
  }

  /** Numbered headings: two leading digits, or a digit and a period in a
      line longer than two characters; a lone digit is a heading too. */
  lemma HeadingExamples()
    ensures ClassifyStripped("1. Executive Summary") == HeadingLine("1. Executive Summary")
    ensures ClassifyStripped("10 Something") == HeadingLine("10 Something")
    ensures ClassifyStripped("7") == HeadingLine("7")
  {
    assert IsHeadingText("1. Executive Summary");
    assert IsHeadingText("10 Something") by {
      assert "10 Something"[..2] == "10";
    }
    assert IsHeadingText("7") by {
      assert "7"[..1] == "7";
    }
  }

  /** A digit and a period alone are not a heading: neither test holds for
      a two-character line whose second character is not a digit. */
  lemma DigitPeriodIsParagraph()
    ensures ClassifyStripped("1.") == ParaLine("1.")
  {
    assert !IsHeadingText("1.") by {
      assert "1."[..2] == "1." && "1."[1] == '.';
    }
    assert !IsBulletText("1.");
    assert CleanParagraph("1.") == "1." by {
      assert RemoveAll("1.", "**") == "1.";
      assert RemoveAll("1.", "__") == "1.";
    }
  }

  /** No whitespace at either end. */
  predicate Trimmed(s: string) {
    s == [] || (!IsSpace(s[0]) && !IsSpace(s[|s| - 1]))
  }

  /** No line break inside. */
  predicate OneLine(s: string) {
    forall k :: 0 <= k < |s| ==> s[k] != '\n'
  }

  /** A marker, a space and trimmed text read as a bullet whose item is the
      text; the heading test does not apply because a marker is no digit. */
  lemma ClassifyBullet(m: char, x: string)
    requires m == '-' || m == '*' || m == '•'
    requires Trimmed(x)
    ensures ClassifyStripped([m, ' '] + x) == BulletLine(x)
  {
    var line := [m, ' '] + x;
    assert line[..2] == [m, ' '] && line[2..] == x;
    assert !IsDigit(line[0]) && !IsDigit(line[1]);
    assert !IsDigits(line[..2]);
    StripUnchanged(x);
  }

  /** A digit and a period followed by at least one character read as a
      heading with the whole line as its text. */
  lemma ClassifyHeading(d: char, rest: string)
    requires IsDigit(d) && rest != []
    ensures ClassifyStripped([d, '.'] + rest) == HeadingLine([d, '.'] + rest)
  {
  }

  /** Bold markers around plain text are dropped from a paragraph. */
  lemma BoldParagraph(a: string, b: string, c: string)
    requires forall i :: 0 <= i < |a| ==> a[i] != '*' && a[i] != '_'
    requires forall i :: 0 <= i < |b| ==> b[i] != '*' && b[i] != '_'
    requires forall i :: 0 <= i < |c| ==> c[i] != '*' && c[i] != '_'
    ensures CleanParagraph(a + "**" + b + "**" + c) == a + b + c
  {
    assert a + "**" + b + "**" + c == a + ("**" + (b + ("**" + c)));
    RemoveAllFree(a, "**" + (b + ("**" + c)), "**");
    RemoveAllAt(b + ("**" + c), "**");
    RemoveAllFree(b, "**" + c, "**");
    RemoveAllAt(c, "**");
    RemoveAllFree(c, [], "**");
    assert c + [] == c;
    assert RemoveAll(a + "**" + b + "**" + c, "**") == a + (b + c);
    var t := a + (b + c);
    assert forall i :: 0 <= i < |t| ==> t[i] != '_';
    RemoveAllFree(t, [], "__");
    assert t + [] == t;
    assert a + (b + c) == a + b + c;
  }

  /** The paragraph cleanup leaves no "__" and keeps every character other
      than '*' and '_', in order. */
  lemma ParagraphCleanup(line: string)
    ensures NoDoubled(CleanParagraph(line), '_')
    ensures Without(CleanParagraph(line), {'*', '_'}) == Without(line, {'*', '_'})
  {
    RemoveAllNoDoubled(RemoveAll(line, "**"), '_');
    RemoveAllKeepsOthers(line, "**", {'*', '_'});
    RemoveAllKeepsOthers(RemoveAll(line, "**"), "__", {'*', '_'});
  }

  /** Because "**" goes first, removing "__" can join two stars into a new
      "**" that stays in the paragraph. */
  lemma StarsCanSurvive()
    ensures CleanParagraph("*__*") == "**"
  {
    var s := "*__*";
    assert s[1] == '_' && s[2] == '_';
    assert s[..2] != "**" by { assert s[..2][1] == '_'; }
    assert s[1..][..2] != "**" by { assert s[1..][..2][0] == '_'; }
    assert s[2..][..2] != "**" by { assert s[2..][..2][0] == '_'; }
    assert s[1..][1..] == s[2..] && s[2..][1..] == "*";
    assert RemoveAll(s, "**") == s;
    RemoveAllFree("*", "__*", "__");
    RemoveAllAt("*", "__");
    assert s == "*" + ("__" + "*");
  }

  /** Four one-line texts without trailing whitespace, joined by line
      breaks, split back into themselves. */
  lemma SplitFourLines(a: string, b: string, c: string, d: string)
    requires a != [] && !IsSpace(a[|a| - 1]) && OneLine(a)
    requires b != [] && !IsSpace(b[|b| - 1]) && OneLine(b)
    requires c != [] && !IsSpace(c[|c| - 1]) && OneLine(c)
    requires d != [] && !IsSpace(d[|d| - 1]) && OneLine(d)
    ensures SplitPdfLines(a + "\n" + b + "\n" + c + "\n" + d) == [a, b, c, d]
  {
    var lines := [a, b, c, d];
    var text := a + "\n" + b + "\n" + c + "\n" + d;
    assert lines[1..] == [b, c, d] && lines[1..][1..] == [c, d] && lines[1..][1..][1..] == [d];
    assert Unlines([d]) == d + "\n" + [];
    assert Unlines([c, d]) == c + "\n" + Unlines([d]);
    assert Unlines([b, c, d]) == b + "\n" + Unlines([c, d]);
    assert text + "\n" == Unlines(lines);
    UnlinesRoundTrip(lines);
    SplitLinesFinalBreak(text);
    RStripUnchanged(a);
    RStripUnchanged(b);
    RStripUnchanged(c);
    RStripUnchanged(d);
  }

  /** A heading, two bullets and a paragraph: the bullets share one list. */
  lemma LayoutFourLines(h: string, x: string, y: string, q: string)
    ensures Layout([HeadingLine(h), BulletLine(x), BulletLine(y), ParaLine(q)])
         == [Heading(h), Spacer(4.0), BulletList([x, y]), Spacer(6.0), Para(q)]
  {
    var ks := [HeadingLine(h), BulletLine(x), BulletLine(y), ParaLine(q)];
    var bs := ks[1..];
    assert bs[1..] == [BulletLine(y), ParaLine(q)] && bs[1..][1..] == [ParaLine(q)];
    assert BulletRun([ParaLine(q)]) == 0;
    assert BulletRun(bs[1..]) == 1;
    assert BulletRun(bs) == 2;
    var two := [BulletLine(x), BulletLine(y)];
    assert bs[..2] == two && two[1..] == [BulletLine(y)] && two[1..][1..] == [];
    assert BulletItems(two[1..]) == [y];
    assert BulletItems(two) == [x, y];
    assert bs[2..] == [ParaLine(q)];
    assert Layout(bs[2..]) == [Para(q)];
  }

  /** The document of a text whose lines read as the given kinds. */
  lemma DocumentOfKinds(text: string, companyName: string, ks: seq<LineKind>)
    requires Kinds(SplitPdfLines(text)) == ks
    ensures GeneratePdf(text, companyName) == [Title(companyName + " — Business Plan"), Spacer(14.4)] + Layout(ks)
  {
    assert TitleGap == 14.4;
  }

  /** The document for a text whose lines read as a heading, two bullets
      and a paragraph. */
  lemma GeneratePdfFourLines(text: string, companyName: string, h: string, x: string, y: string, q: string)
    requires Kinds(SplitPdfLines(text)) == [HeadingLine(h), BulletLine(x), BulletLine(y), ParaLine(q)]
    ensures GeneratePdf(text, companyName)
         == [Title(companyName + " — Business Plan"), Spacer(14.4)]
          + [Heading(h), Spacer(4.0), BulletList([x, y]), Spacer(6.0), Para(q)]
  {
    DocumentOfKinds(text, companyName, [HeadingLine(h), BulletLine(x), BulletLine(y), ParaLine(q)]);
    LayoutFourLines(h, x, y, q);
  }

  /** A line with no surrounding whitespace is classified as it stands. */
  lemma ClassifyTrimmed(raw: string)
    requires Trimmed(raw)
    ensures Classify(raw) == ClassifyStripped(raw)
  {
    StripUnchanged(raw);
  }

  /** Classifying a concatenation classifies each part. */
  lemma KindsAppend(x: seq<string>, y: seq<string>)
    ensures Kinds(x + y) == Kinds(x) + Kinds(y)
  {
    MapAppend(Classify, x, y);
  }

  /** A one-line text reads as its line's kind. */
  lemma KindsOne(raw: string, k: LineKind)
    requires Classify(raw) == k
    ensures Kinds([raw]) == [k]
  {
    assert [raw][0] == raw;
  }

  /** A raw heading line with no trailing whitespace reads as itself; it
      starts with a digit, so it has no leading whitespace either. */
  lemma ClassifyHeadingLine(d: char, headRest: string)
    requires IsDigit(d) && headRest != [] && !IsSpace(headRest[|headRest| - 1])
    ensures Classify([d, '.'] + headRest) == HeadingLine([d, '.'] + headRest)
  {
    var h := [d, '.'] + headRest;
    assert h[|h| - 1] == headRest[|headRest| - 1];
    ClassifyTrimmed(h);
    ClassifyHeading(d, headRest);
  }

  /** A raw "- " line with trimmed, non-empty text reads as that bullet. */
  lemma ClassifyBulletLine(x: string)
    requires x != [] && Trimmed(x)
    ensures Classify(['-', ' '] + x) == BulletLine(x)
  {
    var bx := ['-', ' '] + x;
    assert bx[|bx| - 1] == x[|x| - 1];
    ClassifyTrimmed(bx);
    ClassifyBullet('-', x);
  }

  /** A raw trimmed line that is neither heading nor bullet reads as a
      cleaned paragraph. */
  lemma ClassifyParagraphLine(p: string)
    requires p != [] && Trimmed(p) && !IsHeadingText(p) && !IsBulletText(p)
    ensures Classify(p) == ParaLine(CleanParagraph(p))
  {
    ClassifyTrimmed(p);
  }

  lemma HeadingLineReads(d: char, headRest: string)
    requires IsDigit(d) && headRest != [] && !IsSpace(headRest[|headRest| - 1])
    ensures Kinds([[d, '.'] + headRest]) == [HeadingLine([d, '.'] + headRest)]
  {
    ClassifyHeadingLine(d, headRest);
    KindsOne([d, '.'] + headRest, HeadingLine([d, '.'] + headRest));
  }

  lemma BulletLineReads(x: string)
    requires x != [] && Trimmed(x)
    ensures Kinds([['-', ' '] + x]) == [BulletLine(x)]
  {
    ClassifyBulletLine(x);
    KindsOne(['-', ' '] + x, BulletLine(x));
  }

  lemma ParagraphLineReads(p: string)
    requires p != [] && Trimmed(p) && !IsHeadingText(p) && !IsBulletText(p)
    ensures Kinds([p]) == [ParaLine(CleanParagraph(p))]
  {
    ClassifyParagraphLine(p);
    KindsOne(p, ParaLine(CleanParagraph(p)));
  }

  /** The four example lines read as a heading, two bullets and a
      paragraph. */
  lemma KindsFourLines(d: char, headRest: string, x: string, y: string, p: string)
    requires IsDigit(d) && headRest != [] && !IsSpace(headRest[|headRest| - 1])
    requires x != [] && Trimmed(x)
    requires y != [] && Trimmed(y)
    requires p != [] && Trimmed(p) && !IsHeadingText(p) && !IsBulletText(p)
    ensures Kinds([[d, '.'] + headRest, ['-', ' '] + x, ['-', ' '] + y, p])
         == [HeadingLine([d, '.'] + headRest), BulletLine(x), BulletLine(y), ParaLine(CleanParagraph(p))]
  {
    var h, bx, bY := [d, '.'] + headRest, ['-', ' '] + x, ['-', ' '] + y;
    HeadingLineReads(d, headRest);
    BulletLineReads(x);
    BulletLineReads(y);
    ParagraphLineReads(p);
    assert [h, bx, bY, p] == [h] + [bx] + [bY] + [p];
    KindsAppend([h], [bx]);
    KindsAppend([h] + [bx], [bY]);
    KindsAppend([h] + [bx] + [bY], [p]);
  }

  /** A document of four lines: a numbered heading such as "1. Summary",
      two "- " bullet lines and a paragraph line give, after the title and
      its gap, the heading and its gap, one list of both items and its gap,
      and the cleaned paragraph. */
  lemma DocumentExample(company: string, h: string, x: string, y: string, p: string)
    requires |h| > 2 && IsDigit(h[0]) && h[1] == '.' && !IsSpace(h[|h| - 1]) && OneLine(h)
    requires x != [] && Trimmed(x) && OneLine(x)
    requires y != [] && Trimmed(y) && OneLine(y)
    requires p != [] && Trimmed(p) && OneLine(p) && !IsHeadingText(p) && !IsBulletText(p)
    ensures GeneratePdf(h + "\n" + ("- " + x) + "\n" + ("- " + y) + "\n" + p, company)
      == [Title(company + " — Business Plan"), Spacer(14.4)]
       + [Heading(h), Spacer(4.0), BulletList([x, y]), Spacer(6.0), Para(CleanParagraph(p))]
  {
    var d, headRest := h[0], h[2..];
    assert h == [d, '.'] + headRest;
    assert "- " == ['-', ' '];
    var bx, bY := "- " + x, "- " + y;
    var text := h + "\n" + bx + "\n" + bY + "\n" + p;
    assert OneLine(bx) && OneLine(bY);
    SplitFourLines(h, bx, bY, p);
    KindsFourLines(d, headRest, x, y, p);
    GeneratePdfFourLines(text, company, h, x, y, CleanParagraph(p));
  }

  /** A concrete document: the numbered heading "1. Executive Summary",
      two bullets and a paragraph with a bold phrase, for any company. The
      lines are parameters fixed by the precondition: written inline, the
      literals make the verifier unfold the line splitter and the `**`
      removal character by character, which exceeds the resource limit. */
  lemma ExecutiveSummaryDocument(company: string, h: string, x: string, y: string, p: string)
    requires h == "1. Executive Summary" && x == "Strong team" && y == "Clear market" && p == "We are **ready**."
    ensures GeneratePdf(h + "\n" + ("- " + x) + "\n" + ("- " + y) + "\n" + p, company)
         == [Title(company + " — Business Plan"), Spacer(14.4)]
          + [Heading(h), Spacer(4.0), BulletList([x, y]), Spacer(6.0), Para("We are ready.")]
  {
    ExecutiveSummaryParts(h, x, y, p);
    DocumentExample(company, h, x, y, p);
    ReadyParagraph(p, "We are ", "ready", ".");
  }

  /** The pieces of the concrete document meet the conditions of
      `DocumentExample`. */
  lemma ExecutiveSummaryParts(h: string, x: string, y: string, p: string)
    requires h == "1. Executive Summary" && x == "Strong team" && y == "Clear market" && p == "We are **ready**."
    ensures |h| > 2 && IsDigit(h[0]) && h[1] == '.' && !IsSpace(h[|h| - 1]) && OneLine(h)
    ensures x != [] && Trimmed(x) && OneLine(x) && y != [] && Trimmed(y) && OneLine(y)
    ensures p != [] && Trimmed(p) && OneLine(p) && !IsHeadingText(p) && !IsBulletText(p)
  {
    assert p[0] == 'W' && p[1] == 'e';
  }

  /** The bold phrase of the concrete paragraph is cleaned away. */
  lemma ReadyParagraph(p: string, a: string, b: string, c: string)
    requires p == "We are **ready**." && a == "We are " && b == "ready" && c == "."
    ensures CleanParagraph(p) == "We are ready."
  {
    assert p == a + "**" + b + "**" + c;
    BoldParagraph(a, b, c);
  }
}
