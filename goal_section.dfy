/** Locating, rewriting and reading the `## Weekly Goals` section of a weekly
    note (`replaceGoalsSection` and `extractGoalsSection`). A note is handled as
    its lines, `content.split("\n")`; the section runs from the first line the
    header pattern matches up to the next heading or the end of the note. */
module GoalSection {
  import opened Strings
  import opened IsoWeek
  import opened GoalLines

  /* ---------------- locating the section ---------------- */

  /** Index of the first line the section-header pattern matches, or -1 when
      no line does. */
  function FirstHeader(lines: seq<string>): (k: int)
    ensures -1 <= k < |lines|
  {
    if |lines| == 0 then -1
    else if IsHeaderLine(lines[0]) then 0
    else
      var k := FirstHeader(lines[1..]);
      if k < 0 then -1 else k + 1
  }

  /** The line found is a header line. */
  lemma {:induction false} FirstHeaderIsHeader(lines: seq<string>)
    requires FirstHeader(lines) >= 0
    ensures IsHeaderLine(lines[FirstHeader(lines)])
  {
    if !IsHeaderLine(lines[0]) {
      FirstHeaderIsHeader(lines[1..]);
    }
  }

  /** No line in front of the first header line is a header line. */
  lemma {:induction false} BeforeFirstHeader(lines: seq<string>)
    ensures forall j :: 0 <= j < |lines| && (FirstHeader(lines) < 0 || j < FirstHeader(lines)) ==> !IsHeaderLine(lines[j])
  {
    if |lines| > 0 && !IsHeaderLine(lines[0]) {
      BeforeFirstHeader(lines[1..]);
      assert forall j :: 1 <= j < |lines| ==> lines[j] == lines[1..][j - 1];
    }
  }

  /** The position of the first header line is determined by the lines. */
  lemma {:induction false} FirstHeaderIs(lines: seq<string>, k: int)
    requires -1 <= k < |lines|
    requires k >= 0 ==> IsHeaderLine(lines[k])
    requires forall j :: 0 <= j < |lines| && (k < 0 || j < k) ==> !IsHeaderLine(lines[j])
    ensures FirstHeader(lines) == k
  {
    if |lines| > 0 && !IsHeaderLine(lines[0]) {
      assert forall j :: 1 <= j < |lines| ==> lines[1..][j - 1] == lines[j];
      FirstHeaderIs(lines[1..], if k < 0 then -1 else k - 1);
    }
  }

  /** The line search and the `hadSection` pattern can disagree: a header
      after a lone carriage return is on the first line for `split("\n")` and
      is found there under the `m` flag, but `(^|\n)` does not see it. */
  lemma HeaderAfterCarriageReturn()
    ensures var c := "x\r" + SectionHeading;
      FirstHeader(Split(c)) == 0 && IsHeaderLine(c) && !HadSection(c)
  {
    SectionHeadingText();
    SectionHeadingOneLine();
    HeaderBehindCarriageReturn("x\r", SectionHeading);
  }

  lemma HeaderBehindCarriageReturn(p: string, head: string)
    requires |p| >= 1 && p[|p| - 1] == '\r' && p[0] != '#' && '\n' !in p
    requires IsHeaderText(head) && '\n' !in head
    ensures var c := p + head;
      FirstHeader(Split(c)) == 0 && IsHeaderLine(c) && !HadSection(c)
  {
    var c := p + head;
    assert c[|p| - 1] == '\r' && c[|p|..|c|] == head;
    HeaderLineAt(c, |p|, |c|);
    assert '\n' !in c by {
      forall k | 0 <= k < |c|
        ensures c[k] != '\n'
      {
        if k < |p| {
          assert c[k] == p[k];
        } else {
          assert c[k] == head[k - |p|];
        }
      }
    }
    SplitLine(c, "");
    FirstHeaderIs([c], 0);
    forall i, j | 0 <= i <= j <= |c|
      ensures !SectionAt(c, i, j)
    {
      if i == 0 && j >= 1 {
        assert c[i..j][0] == p[0];
      }
    }
  }

  /** Index of the first heading line (`/^#{1,6}\s+/`), or the number of lines
      when there is none. */
  function FirstHeading(lines: seq<string>): (k: nat)
    ensures k <= |lines|
  {
    if |lines| == 0 || IsHeading(lines[0]) then 0 else 1 + FirstHeading(lines[1..])
  }

  /** The line found, if any, is a heading. */
  lemma {:induction false} FirstHeadingIsHeading(lines: seq<string>)
    requires FirstHeading(lines) < |lines|
    ensures IsHeading(lines[FirstHeading(lines)])
  {
    if !IsHeading(lines[0]) {
      FirstHeadingIsHeading(lines[1..]);
    }
  }

  /** No line in front of the first heading is a heading. */
  lemma {:induction false} BeforeFirstHeading(lines: seq<string>)
    ensures forall j :: 0 <= j < FirstHeading(lines) ==> !IsHeading(lines[j])
  {
    if |lines| > 0 && !IsHeading(lines[0]) {
      BeforeFirstHeading(lines[1..]);
      assert forall j :: 1 <= j < |lines| ==> lines[j] == lines[1..][j - 1];
    }
  }

  lemma {:induction false} FirstHeadingIs(lines: seq<string>, k: nat)
    requires k <= |lines|
    requires k < |lines| ==> IsHeading(lines[k])
    requires forall j :: 0 <= j < k ==> !IsHeading(lines[j])
    ensures FirstHeading(lines) == k
  {
    if |lines| > 0 && !IsHeading(lines[0]) {
      assert forall j :: 1 <= j < |lines| ==> lines[1..][j - 1] == lines[j];
      FirstHeadingIs(lines[1..], k - 1);
    }
  }

  /** Where a section whose body starts at line `from` ends: at the next
      heading at or after `from`, or at the end of the note. */
  function SectionEnd(lines: seq<string>, from: nat): (e: nat)
    requires from <= |lines|
    ensures from <= e <= |lines|
  {
    from + FirstHeading(lines[from..])
  }

  /** Lines without a header in front of a block move its first header back. */
  lemma FirstHeaderAfter(a: seq<string>, b: seq<string>)
    requires forall j :: 0 <= j < |a| ==> !IsHeaderLine(a[j])
    ensures FirstHeader(a + b) == if FirstHeader(b) < 0 then -1 else |a| + FirstHeader(b)
  {
    var k := FirstHeader(b);
    var ab := a + b;
    BeforeFirstHeader(b);
    if k >= 0 {
      FirstHeaderIsHeader(b);
    }
    assert forall j :: |a| <= j < |ab| ==> ab[j] == b[j - |a|];
    assert forall j :: 0 <= j < |a| ==> ab[j] == a[j];
    FirstHeaderIs(ab, if k < 0 then -1 else |a| + k);
  }

  /** Lines without a heading in front of a block move its first heading back. */
  lemma FirstHeadingAfter(a: seq<string>, b: seq<string>)
    requires forall j :: 0 <= j < |a| ==> !IsHeading(a[j])
    ensures FirstHeading(a + b) == |a| + FirstHeading(b)
  {
    var ab := a + b;
    BeforeFirstHeading(b);
    if FirstHeading(b) < |b| {
      FirstHeadingIsHeading(b);
    }
    assert forall j :: |a| <= j < |ab| ==> ab[j] == b[j - |a|];
    assert forall j :: 0 <= j < |a| ==> ab[j] == a[j];
    FirstHeadingIs(ab, |a| + FirstHeading(b));
  }

  /* ---------------- the two operations, as functions ---------------- */

  /** The title given to a note that has none, `# <today>`, where `today` is
      the week key of the current date. */
  function TitleLine(today: string): string {
    "# " + today
  }

  /** The title a note without a section is given, followed by a blank line;
      nothing when the note already starts with a title. */
  function NewTitle(lines: seq<string>, today: string): seq<string> {
    if |lines| == 0 || !IsTitle(lines[0]) then [TitleLine(today), ""] else []
  }

  /** The lines `replaceGoalsSection` joins, when `today` is the week key of
      `DateTime.now()`: the section found is replaced by the rendered goals;
      without a section, the rendered goals and a blank line are put in front
      of the note, under a new title when the note does not start with one. */
  function NewLines(lines: seq<string>, goals: seq<Goal>, today: string): seq<string> {
    var start := FirstHeader(lines);
    if start >= 0 then
      lines[..start] + RenderSection(goals) + lines[SectionEnd(lines, start + 1)..]
    else if |lines| == 0 || !IsTitle(lines[0]) then
      [TitleLine(today), ""] + RenderSection(goals) + [""] + lines
    else
      RenderSection(goals) + [""] + lines
  }

  /** What `replaceGoalsSection(content, goals)` returns. */
  function Replaced(content: string, goals: seq<Goal>, today: string): string {
    Join(NewLines(Split(content), goals, today))
  }

  /** The lines of the section: after the first header line, up to the next
      heading; none when no line is a header. */
  function SectionBody(lines: seq<string>): seq<string> {
    var h := FirstHeader(lines);
    if h < 0 then [] else lines[h + 1..SectionEnd(lines, h + 1)]
  }

  /** The goals on the lines of the section. */
  function SectionGoals(lines: seq<string>): seq<Goal> {
    ParseLines(SectionBody(lines))
  }

  /** What `extractGoalsSection(content)` returns: nothing unless the header
      pattern occurs in the note and on one of its lines; otherwise the goals of
      the section's lines, joined and split again. */
  function Extracted(content: string): seq<Goal> {
    if !IsHeaderLine(content) then []
    else
      var lines := Split(content);
      if FirstHeader(lines) < 0 then [] else ParseLines(Split(Join(SectionBody(lines))))
  }

  /* ---------------- the two operations, as the source runs them ---------------- */

  /** The loop both operations start with: the index of the first line the
      header pattern matches, or -1. */
  method FindHeader(lines: seq<string>) returns (start: int)
    ensures start == FirstHeader(lines)
  {
    start := -1;
    for i := 0 to |lines|
      invariant start == -1
      invariant forall j :: 0 <= j < i ==> !IsHeaderLine(lines[j])
    {
      if IsHeaderLine(lines[i]) {
        start := i;
        break;
      }
    }
    FirstHeaderIs(lines, start);
  }

  /** The loop that finds the end of a section whose body starts at line
      `from`: the next heading, or the number of lines. */
  method FindSectionEnd(lines: seq<string>, from: nat) returns (end: nat)
    requires from <= |lines|
    ensures end == SectionEnd(lines, from)
  {
    end := |lines|;
    for i := from to |lines|
      invariant end == |lines|
      invariant forall j :: from <= j < i ==> !IsHeading(lines[j])
    {
      if IsHeading(lines[i]) {
        end := i;
        break;
      }
    }
    SectionEndIs(lines, from, end);
  }

  lemma SectionEndIs(lines: seq<string>, from: nat, e: nat)
    requires from <= e <= |lines|
    requires e < |lines| ==> IsHeading(lines[e])
    requires forall j :: from <= j < e ==> !IsHeading(lines[j])
    ensures SectionEnd(lines, from) == e
  {
    var rest := lines[from..];
    assert forall j :: 0 <= j < e - from ==> rest[j] == lines[from + j];
    FirstHeadingIs(rest, e - from);
  }

  /** The lines from the end of a section on start with a heading, if any. */
  lemma AfterSectionEnd(lines: seq<string>, from: nat)
    requires from <= |lines|
    ensures FirstHeading(lines[SectionEnd(lines, from)..]) == 0
  {
    var rest := lines[from..];
    var e := SectionEnd(lines, from);
    if e < |lines| {
      FirstHeadingIsHeading(rest);
      assert lines[e..][0] == rest[FirstHeading(rest)];
    }
    FirstHeadingIs(lines[e..], 0);
  }

  /** `replaceGoalsSection`, run on day `now`. */
  method ReplaceGoalsSection(content: string, goals: seq<Goal>, now: Day) returns (r: string)
    ensures r == Replaced(content, goals, WeekKey(now))
  {
    var lines := Split(content);
    var start := FindHeader(lines);
    var rendered := RenderSection(goals);
    ghost var spec := NewLines(lines, goals, WeekKey(now));
    var newLines;
    if start >= 0 {
      var end := FindSectionEnd(lines, start + 1);
      newLines := lines[..start] + rendered + lines[end..];
      assert newLines == spec;
    } else if |lines| == 0 || !IsTitle(lines[0]) {
      newLines := [TitleLine(WeekKey(now)), ""] + rendered + [""] + lines;
      assert newLines == spec;
    } else {
      newLines := rendered + [""] + lines;
      assert newLines == spec;
    }
    r := Join(newLines);
  }

  /** `extractGoalsSection`. */
  method ExtractGoalsSection(content: string) returns (goals: seq<Goal>)
    ensures goals == Extracted(content)
  {
    if !IsHeaderLine(content) {
      return [];
    }
    var lines := Split(content);
    var h := FindHeader(lines);
    if h < 0 {
      return [];
    }
    var start := h + 1;
    var end := FindSectionEnd(lines, start);
    SectionBodyIs(lines, h, end);
    goals := ParseGoalsFromSection(Join(lines[start..end]));
  }

  /* ---------------- where the header shows up ---------------- */

  /** A header line of a note is also a match of the header pattern (under
      the `m` flag) in the note's whole text. */
  lemma HeaderLineInText(lines: seq<string>, k: nat)
    requires k < |lines| && IsHeaderLine(lines[k])
    ensures IsHeaderLine(Join(lines))
  {
    var p := JoinPlacesLine(lines, k);
    HeaderLineShift(Join(lines), lines[k], p);
  }

  /** A header line stays a header line inside a text that holds it between
      line breaks. */
  lemma HeaderLineShift(s: string, line: string, p: nat)
    requires LineAt(s, line, p)
    requires IsHeaderLine(line)
    ensures IsHeaderLine(s)
  {
    var i, j :| 0 <= i <= j <= |line| && HeaderAt(line, i, j);
    HeaderAtShift(s, line, p, i, j);
    HeaderLineAt(s, p + i, p + j);
  }

  lemma HeaderAtShift(s: string, line: string, p: nat, i: nat, j: nat)
    requires LineAt(s, line, p)
    requires i <= j <= |line| && HeaderAt(line, i, j)
    ensures HeaderAt(s, p + i, p + j)
  {
    SliceOfSlice(s, p, p + |line|, i, j);
    if i > 0 {
      assert s[p + i - 1] == line[i - 1];
    }
    if j < |line| {
      assert s[p + j] == line[j];
    }
  }

  /** A line of a note that is the header, spaces aside, is found by the
      `hadSection` pattern. */
  lemma SectionLineInText(lines: seq<string>, k: nat)
    requires k < |lines| && IsHeaderText(lines[k])
    ensures HadSection(Join(lines))
  {
    var p := JoinPlacesLine(lines, k);
    SectionLineShift(Join(lines), lines[k], p);
  }

  /** A line that is the header, spaces aside, is found by the `hadSection`
      pattern inside a text that holds it between line breaks. */
  lemma SectionLineShift(s: string, line: string, p: nat)
    requires LineAt(s, line, p)
    requires IsHeaderText(line)
    ensures HadSection(s)
  {
    HadSectionAt(s, p, p + |line|);
  }

  /** A note with the written heading on one of its lines is found by both
      header patterns. */
  lemma SectionHeadingInText(lines: seq<string>, k: nat)
    requires k < |lines| && lines[k] == SectionHeading
    ensures HadSection(Join(lines)) && IsHeaderLine(Join(lines))
  {
    SectionHeadingText();
    SectionHeadingIsHeader();
    SectionLineInText(lines, k);
    HeaderLineInText(lines, k);
  }

  /** The early exit of `extractGoalsSection` on `content.search(...) < 0`
      never changes its result, and the section's lines survive the `join`
      and `split` between the two functions. */
  lemma ExtractedSection(content: string)
    ensures Extracted(content) == SectionGoals(Split(content))
  {
    var lines := Split(content);
    if FirstHeader(lines) >= 0 {
      HeaderInNote(content);
      SplitPieces(content);
      SectionBodyLines(lines);
      ParseJoined(SectionBody(lines));
    }
  }

  /** A note one of whose lines is a header line is found by the header
      pattern as a whole. */
  lemma HeaderInNote(content: string)
    requires FirstHeader(Split(content)) >= 0
    ensures IsHeaderLine(content)
  {
    JoinSplit(content);
    FirstHeaderIsHeader(Split(content));
    HeaderLineInText(Split(content), FirstHeader(Split(content)));
  }

  /** The section's lines are lines of the note. */
  lemma SectionBodyLines(lines: seq<string>)
    requires NoNewlines(lines)
    ensures NoNewlines(SectionBody(lines))
  {
    var h := FirstHeader(lines);
    if h >= 0 {
      var body := SectionBody(lines);
      forall k | 0 <= k < |body| ensures '\n' !in body[k] {
        assert body[k] == lines[h + 1 + k];
      }
    }
  }

  /** Joining lines and splitting them again changes no goal read from them. */
  lemma ParseJoined(body: seq<string>)
    requires NoNewlines(body)
    ensures ParseLines(Split(Join(body))) == ParseLines(body)
  {
    if |body| == 0 {
      assert ParseLines(Split(Join(body))) == ParseLines([""]) == [];
    } else {
      SplitJoin(body);
    }
  }

  /* ---------------- the lines of a rewritten note ---------------- */

  /** Lines with no header, the written heading, lines with no heading, and
      the rest of a note: the section is found right after the first part,
      and it runs on over the second part to the first heading of the rest. */
  lemma SectionFound(pre: seq<string>, head: string, body: seq<string>, post: seq<string>)
    requires forall j :: 0 <= j < |pre| ==> !IsHeaderLine(pre[j])
    requires IsHeaderLine(head)
    requires forall j :: 0 <= j < |body| ==> !IsHeading(body[j])
    ensures var n := pre + ([head] + (body + post));
      FirstHeader(n) == |pre| && n[|pre|] == head
      && SectionEnd(n, |pre| + 1) == |pre| + 1 + |body| + FirstHeading(post)
  {
    var rest := [head] + (body + post);
    var n := pre + rest;
    assert FirstHeader(rest) == 0;
    FirstHeaderAfter(pre, rest);
    AfterPrefix(pre, rest);
    DropOfDrop(n, |pre|, 1);
    assert rest[1..] == body + post;
    FirstHeadingAfter(body, post);
  }

  /** The section of such a block holds the second part and the rest's lines
      above its first heading. */
  lemma SectionBodyFound(pre: seq<string>, head: string, body: seq<string>, post: seq<string>)
    requires forall j :: 0 <= j < |pre| ==> !IsHeaderLine(pre[j])
    requires IsHeaderLine(head)
    requires forall j :: 0 <= j < |body| ==> !IsHeading(body[j])
    ensures SectionBody(pre + ([head] + (body + post))) == body + post[..FirstHeading(post)]
  {
    var n := pre + ([head] + (body + post));
    var f := FirstHeading(post);
    SectionFound(pre, head, body, post);
    SectionMiddle(pre, head, body, post, f);
    SectionBodyIs(n, |pre|, |pre| + 1 + |body| + f);
  }

  /** The lines after the heading of such a block, up to `f` lines into the
      rest. */
  lemma SectionMiddle(pre: seq<string>, head: string, body: seq<string>, post: seq<string>, f: nat)
    requires f <= |post|
    ensures var n := pre + ([head] + (body + post));
      n[|pre| + 1..|pre| + 1 + |body| + f] == body + post[..f]
  {
    var rest := [head] + (body + post);
    var n := pre + rest;
    AfterPrefix(pre, rest);
    DropOfDrop(n, |pre|, 1);
    assert n[|pre| + 1..] == body + post;
    TakeOfDrop(n, |pre| + 1, |body| + f);
    TakeInSecond(body, post, |body| + f);
  }

  lemma SectionBodyIs(lines: seq<string>, h: nat, e: nat)
    requires h < |lines| && FirstHeader(lines) == h
    requires h + 1 <= e <= |lines| && SectionEnd(lines, h + 1) == e
    ensures SectionBody(lines) == lines[h + 1..e]
  {
  }

  /** The parts of such a block, cut where its section ends. */
  lemma SectionParts(pre: seq<string>, head: string, body: seq<string>, post: seq<string>, f: nat)
    requires f <= |post|
    ensures var n := pre + ([head] + (body + post));
      var e := |pre| + 1 + |body| + f;
      n[..|pre|] == pre && n[|pre| + 1..e] == body + post[..f] && n[e..] == post[f..]
  {
    SectionMiddle(pre, head, body, post, f);
    BlockOuterParts(pre, head, body, post, f);
  }

  /** `SectionFound`, `SectionBodyFound` and `RewriteOfBlock` for the heading
      the service writes. */
  lemma WrittenSectionFound(pre: seq<string>, body: seq<string>, post: seq<string>)
    requires forall j :: 0 <= j < |pre| ==> !IsHeaderLine(pre[j])
    requires forall j :: 0 <= j < |body| ==> !IsHeading(body[j])
    ensures var n := pre + ([SectionHeading] + (body + post));
      FirstHeader(n) == |pre| && n[|pre|] == SectionHeading
      && SectionEnd(n, |pre| + 1) == |pre| + 1 + |body| + FirstHeading(post)
  {
    SectionHeadingIsHeader();
    SectionFound(pre, SectionHeading, body, post);
  }

  lemma WrittenSectionBody(pre: seq<string>, body: seq<string>, post: seq<string>)
    requires forall j :: 0 <= j < |pre| ==> !IsHeaderLine(pre[j])
    requires forall j :: 0 <= j < |body| ==> !IsHeading(body[j])
    ensures SectionBody(pre + ([SectionHeading] + (body + post))) == body + post[..FirstHeading(post)]
  {
    SectionHeadingIsHeader();
    SectionBodyFound(pre, SectionHeading, body, post);
  }

  lemma RewriteOfWrittenBlock(pre: seq<string>, body: seq<string>, post: seq<string>,
                              goals: seq<Goal>, today: string)
    requires forall j :: 0 <= j < |pre| ==> !IsHeaderLine(pre[j])
    requires forall j :: 0 <= j < |body| ==> !IsHeading(body[j])
    ensures NewLines(pre + ([SectionHeading] + (body + post)), goals, today)
      == pre + RenderSection(goals) + post[FirstHeading(post)..]
  {
    SectionHeadingIsHeader();
    RewriteOfBlock(pre, SectionHeading, body, post, goals, today);
  }

  /** With a section, the rewrite keeps the lines before the section and
      those from the next heading on, in order, around the rendered goals (the
      non-corruption promise). */
  lemma SpliceShape(lines: seq<string>, goals: seq<Goal>, today: string)
    requires FirstHeader(lines) >= 0
    ensures var s := FirstHeader(lines);
      var e := SectionEnd(lines, s + 1);
      NewLines(lines, goals, today) == lines[..s] + RenderSection(goals) + lines[e..]
      && NewLines(lines, goals, today) == lines[..s] + ([SectionHeading] + (RenderGoals(goals) + lines[e..]))
  {
    var s := FirstHeader(lines);
    RegroupAround(lines[..s], SectionHeading, RenderGoals(goals), lines[SectionEnd(lines, s + 1)..]);
  }

  /** The section of a rewritten note is found at the same place as before,
      and it ends right after the last goal. */
  lemma NewLinesWithSection(lines: seq<string>, goals: seq<Goal>, today: string)
    requires FirstHeader(lines) >= 0
    ensures var s := FirstHeader(lines);
      var n := NewLines(lines, goals, today);
      FirstHeader(n) == s && n[s] == SectionHeading && SectionEnd(n, s + 1) == s + 1 + |goals|
  {
    var s := FirstHeader(lines);
    var e := SectionEnd(lines, s + 1);
    var post := lines[e..];
    SpliceShape(lines, goals, today);
    BeforeFirstHeader(lines);
    RenderedGoalsNotHeadings(goals);
    AfterSectionEnd(lines, s + 1);
    WrittenSectionFound(lines[..s], RenderGoals(goals), post);
  }

  /** The parts of a rewritten note around its section. */
  lemma SplicedParts(lines: seq<string>, goals: seq<Goal>, today: string)
    requires FirstHeader(lines) >= 0
    ensures var s := FirstHeader(lines);
      var e := SectionEnd(lines, s + 1);
      var n := NewLines(lines, goals, today);
      n[..s] == lines[..s] && n[s + 1..s + 1 + |goals|] == RenderGoals(goals)
      && n[s + 1 + |goals|..] == lines[e..]
  {
    var s := FirstHeader(lines);
    var e := SectionEnd(lines, s + 1);
    var g := RenderGoals(goals);
    var post := lines[e..];
    SpliceShape(lines, goals, today);
    SectionParts(lines[..s], SectionHeading, g, post, 0);
    assert g + post[..0] == g;
  }

  /** Without a section, the new section is the first one, and it runs on
      over the blank line to the note's first heading. */
  lemma NewLinesWithoutSection(lines: seq<string>, goals: seq<Goal>, today: string)
    requires NoLineTerminator(today)
    requires FirstHeader(lines) < 0
    ensures var t := NewTitle(lines, today);
      var n := NewLines(lines, goals, today);
      FirstHeader(n) == |t| && n[|t|] == SectionHeading
      && SectionEnd(n, |t| + 1) == |t| + |goals| + 2 + FirstHeading(lines)
  {
    InsertShape(lines, goals, today);
    NewTitlePlain(lines, today);
    InsertedFound(NewTitle(lines, today), goals, lines);
  }

  /** Where the section of a note it was put into is found, the note given as
      its parts: a title without a header, the heading, the rendered goals, a
      blank line and the lines the note had. */
  lemma InsertedFound(t: seq<string>, goals: seq<Goal>, lines: seq<string>)
    requires forall j :: 0 <= j < |t| ==> !IsHeaderLine(t[j])
    ensures var n := t + ([SectionHeading] + ((RenderGoals(goals) + [""]) + lines));
      FirstHeader(n) == |t| && n[|t|] == SectionHeading
      && SectionEnd(n, |t| + 1) == |t| + |goals| + 2 + FirstHeading(lines)
  {
    InsertedBodyPlain(goals);
    WrittenSectionFound(t, RenderGoals(goals) + [""], lines);
  }

  /** Without a section, the rewritten lines, regrouped around the heading. */
  lemma InsertShape(lines: seq<string>, goals: seq<Goal>, today: string)
    requires FirstHeader(lines) < 0
    ensures NewLines(lines, goals, today)
      == NewTitle(lines, today) + ([SectionHeading] + ((RenderGoals(goals) + [""]) + lines))
  {
    InsertLines(lines, goals, today);
    RegroupAroundTwo(NewTitle(lines, today), SectionHeading, RenderGoals(goals), "", lines);
  }

  lemma InsertLines(lines: seq<string>, goals: seq<Goal>, today: string)
    requires FirstHeader(lines) < 0
    ensures NewLines(lines, goals, today) == NewTitle(lines, today) + RenderSection(goals) + [""] + lines
  {
    if |lines| > 0 && IsTitle(lines[0]) {
      assert NewTitle(lines, today) + RenderSection(goals) == RenderSection(goals);
    }
  }

  /** The title lines put on a note are not section headers. */
  lemma NewTitlePlain(lines: seq<string>, today: string)
    requires NoLineTerminator(today)
    ensures forall j :: 0 <= j < |NewTitle(lines, today)| ==> !IsHeaderLine(NewTitle(lines, today)[j])
  {
    TitleLinesArePlain(today);
  }

  /** The rendered goals and the blank line under them hold no heading. */
  lemma InsertedBodyPlain(goals: seq<Goal>)
    ensures forall j :: 0 <= j < |RenderGoals(goals) + [""]| ==> !IsHeading((RenderGoals(goals) + [""])[j])
  {
    var g := RenderGoals(goals) + [""];
    RenderedGoalsNotHeadings(goals);
    forall j | 0 <= j < |g| ensures !IsHeading(g[j]) {
      if j < |goals| {
        assert g[j] == RenderGoals(goals)[j];
      }
    }
  }

  lemma TitleLinesArePlain(today: string)
    requires NoLineTerminator(today)
    ensures !IsHeaderLine(TitleLine(today)) && !IsHeaderLine("") && !IsHeading("")
    ensures '\n' !in TitleLine(today)
  {
    var t := TitleLine(today);
    assert NoLineTerminator(t);
    HeaderLineWithoutTerminators(t);
    HeaderLineWithoutTerminators("");
  }

  /** A rewritten note is made of lines again, so that splitting its text
      gives the rewritten lines back. */
  lemma NewLinesAreLines(lines: seq<string>, goals: seq<Goal>, today: string)
    requires NoNewlines(lines) && OneLineTexts(goals)
    requires FirstHeader(lines) >= 0 || NoLineTerminator(today)
    ensures |NewLines(lines, goals, today)| >= 1 && NoNewlines(NewLines(lines, goals, today))
  {
    if FirstHeader(lines) >= 0 {
      SplicedAreLines(lines, goals, today);
    } else {
      InsertedAreLines(lines, goals, today);
    }
  }

  lemma SplicedAreLines(lines: seq<string>, goals: seq<Goal>, today: string)
    requires NoNewlines(lines) && OneLineTexts(goals)
    requires FirstHeader(lines) >= 0
    ensures |NewLines(lines, goals, today)| >= 1 && NoNewlines(NewLines(lines, goals, today))
  {
    var r := RenderSection(goals);
    var s := FirstHeader(lines);
    SpliceShape(lines, goals, today);
    RenderedSectionOneLine(goals);
    NoNewlinesConcat(lines[..s], r);
    NoNewlinesConcat(lines[..s] + r, lines[SectionEnd(lines, s + 1)..]);
  }

  lemma InsertedAreLines(lines: seq<string>, goals: seq<Goal>, today: string)
    requires NoNewlines(lines) && OneLineTexts(goals)
    requires FirstHeader(lines) < 0 && NoLineTerminator(today)
    ensures |NewLines(lines, goals, today)| >= 1 && NoNewlines(NewLines(lines, goals, today))
  {
    var r := RenderSection(goals);
    var t := NewTitle(lines, today);
    InsertLines(lines, goals, today);
    RenderedSectionOneLine(goals);
    TitleLinesArePlain(today);
    NoNewlinesConcat(t, r);
    NoNewlinesConcat(t + r, [""]);
    NoNewlinesConcat(t + r + [""], lines);
  }

  /** Splitting a rewritten note gives the rewritten lines. */
  lemma SplitReplaced(content: string, goals: seq<Goal>, today: string)
    requires OneLineTexts(goals)
    requires FirstHeader(Split(content)) >= 0 || NoLineTerminator(today)
    ensures Split(Replaced(content, goals, today)) == NewLines(Split(content), goals, today)
  {
    SplitPieces(content);
    NewLinesAreLines(Split(content), goals, today);
    SplitJoin(NewLines(Split(content), goals, today));
  }

  /* ---------------- what a rewrite keeps ---------------- */

  /** Every line of a note with a section, but those of the section, is kept
      in order around the rendered goals. */
  lemma ReplaceKeepsRestOfNote(content: string, goals: seq<Goal>, today: string)
    requires OneLineTexts(goals)
    requires FirstHeader(Split(content)) >= 0
    ensures var lines := Split(content);
      var s := FirstHeader(lines);
      Split(Replaced(content, goals, today))
      == lines[..s] + RenderSection(goals) + lines[SectionEnd(lines, s + 1)..]
  {
    SplitReplaced(content, goals, today);
    SpliceShape(Split(content), goals, today);
  }

  /** The same, byte for byte: the note's text follows the new section and a
      blank line unchanged. */
  lemma InsertKeepsNote(content: string, goals: seq<Goal>, today: string)
    requires FirstHeader(Split(content)) < 0
    ensures var lines := Split(content);
      Replaced(content, goals, today)
      == (if IsTitle(lines[0]) then "" else TitleLine(today) + "\n\n") + Join(RenderSection(goals)) + "\n\n" + content
  {
    var lines := Split(content);
    var r := RenderSection(goals);
    InsertLines(lines, goals, today);
    JoinSplit(content);
    JoinBlankBetween(r, lines);
    if !IsTitle(lines[0]) {
      Concat3([TitleLine(today), ""], r, [""]);
      Concat3([TitleLine(today), ""], r + [""], lines);
      JoinLineBlank(TitleLine(today), r + [""] + lines);
      StringAssoc(TitleLine(today) + "\n\n", Join(r), "\n\n", content);
    }
  }

  /* ---------------- writing twice ---------------- */

  lemma NewLinesIdempotent(lines: seq<string>, goals: seq<Goal>, today: string, later: string)
    requires FirstHeader(lines) >= 0
    ensures NewLines(NewLines(lines, goals, today), goals, later) == NewLines(lines, goals, today)
  {
    var n := NewLines(lines, goals, today);
    SpliceShape(lines, goals, today);
    NewLinesWithSection(lines, goals, today);
    SplicedParts(lines, goals, today);
    SpliceShape(n, goals, later);
  }

  /** Writing the same goals into a note that has a section a second time
      changes nothing; the day the write happens on plays no part. */
  lemma ReplaceIdempotent(content: string, goals: seq<Goal>, today: string, later: string)
    requires OneLineTexts(goals)
    requires FirstHeader(Split(content)) >= 0
    ensures Replaced(Replaced(content, goals, today), goals, later) == Replaced(content, goals, today)
  {
    SplitReplaced(content, goals, today);
    NewLinesIdempotent(Split(content), goals, today, later);
  }

  /** After any write, the note has a section that every later write and read
      finds, and the `hadSection` pattern finds it too. */
  lemma ReplacedHasSection(content: string, goals: seq<Goal>, today: string)
    requires NoLineTerminator(today)
    requires OneLineTexts(goals)
    ensures var n := Split(Replaced(content, goals, today));
      FirstHeader(n) >= 0 && n[FirstHeader(n)] == SectionHeading
    ensures HadSection(Replaced(content, goals, today))
    ensures IsHeaderLine(Replaced(content, goals, today))
  {
    var lines := Split(content);
    var n := NewLines(lines, goals, today);
    SplitReplaced(content, goals, today);
    if FirstHeader(lines) >= 0 {
      NewLinesWithSection(lines, goals, today);
    } else {
      NewLinesWithoutSection(lines, goals, today);
    }
    SectionHeadingInText(n, FirstHeader(n));
  }

  lemma SecondWriteLines(lines: seq<string>, goals: seq<Goal>, today: string, later: string)
    requires NoLineTerminator(today)
    requires FirstHeader(lines) < 0
    ensures NewLines(NewLines(lines, goals, today), goals, later)
      == NewTitle(lines, today) + RenderSection(goals) + lines[FirstHeading(lines)..]
  {
    InsertShape(lines, goals, today);
    NewTitlePlain(lines, today);
    InsertedBodyPlain(goals);
    RewriteOfWrittenBlock(NewTitle(lines, today), RenderGoals(goals) + [""], lines, goals, later);
  }

  /** Rewriting a block whose section starts at `head` keeps the lines in
      front of it and the rest's lines from its first heading on. */
  lemma RewriteOfBlock(pre: seq<string>, head: string, body: seq<string>, post: seq<string>,
                       goals: seq<Goal>, today: string)
    requires forall j :: 0 <= j < |pre| ==> !IsHeaderLine(pre[j])
    requires IsHeaderLine(head)
    requires forall j :: 0 <= j < |body| ==> !IsHeading(body[j])
    ensures NewLines(pre + ([head] + (body + post)), goals, today)
      == pre + RenderSection(goals) + post[FirstHeading(post)..]
  {
    var n := pre + ([head] + (body + post));
    var f := FirstHeading(post);
    SectionFound(pre, head, body, post);
    BlockOuterParts(pre, head, body, post, f);
    RewriteAt(n, goals, today, pre, |pre| + 1 + |body| + f, post[f..]);
  }

  /** The lines of such a block in front of the head, and those from `f`
      lines into the rest. */
  lemma BlockOuterParts(pre: seq<string>, head: string, body: seq<string>, post: seq<string>, f: nat)
    requires f <= |post|
    ensures var n := pre + ([head] + (body + post));
      n[..|pre|] == pre && n[|pre| + 1 + |body| + f..] == post[f..]
  {
    var rest := [head] + (body + post);
    var n := pre + rest;
    AfterPrefix(pre, rest);
    DropOfDrop(n, |pre|, 1);
    assert n[|pre| + 1..] == body + post;
    DropOfDrop(n, |pre| + 1, |body| + f);
    AfterPrefix(body, post);
    DropOfDrop(body + post, |body|, f);
  }

  /** The rewrite of a note whose section starts after the lines `pre` and
      ends at line `e`, in front of the lines `post`. */
  lemma RewriteAt(n: seq<string>, goals: seq<Goal>, today: string, pre: seq<string>, e: nat, post: seq<string>)
    requires |pre| < |n| && FirstHeader(n) == |pre| && n[..|pre|] == pre
    requires |pre| + 1 <= e <= |n| && SectionEnd(n, |pre| + 1) == e && n[e..] == post
    ensures NewLines(n, goals, today) == pre + RenderSection(goals) + post
  {
  }

  /** The second write loses at least the blank line. */
  lemma SecondWriteShorter(lines: seq<string>, goals: seq<Goal>, today: string, later: string)
    requires NoLineTerminator(today)
    requires FirstHeader(lines) < 0
    ensures |NewLines(NewLines(lines, goals, today), goals, later)| < |NewLines(lines, goals, today)|
  {
    SecondWriteLines(lines, goals, today, later);
    InsertShape(lines, goals, today);
  }

  /** A second write to a note that had no section does not give the same
      text: the blank line under the new section is dropped, and so is every
      line the note had above its first heading. */
  lemma SecondWriteAfterInsert(content: string, goals: seq<Goal>, today: string, later: string)
    requires NoLineTerminator(today)
    requires OneLineTexts(goals)
    requires FirstHeader(Split(content)) < 0
    ensures var lines := Split(content);
      var once := Replaced(content, goals, today);
      Split(Replaced(once, goals, later)) == NewTitle(lines, today) + RenderSection(goals) + lines[FirstHeading(lines)..]
      && Replaced(once, goals, later) != once
  {
    var lines := Split(content);
    var once := Replaced(content, goals, today);
    SplitReplaced(content, goals, today);
    NewLinesWithoutSection(lines, goals, today);
    SplitReplaced(once, goals, later);
    SecondWriteLines(lines, goals, today, later);
    SecondWriteShorter(lines, goals, today, later);
  }

  /* ---------------- reading back ---------------- */

  lemma SectionGoalsOfNewLines(lines: seq<string>, goals: seq<Goal>, today: string)
    requires NoLineTerminator(today)
    requires AllClean(goals)
    ensures SectionGoals(NewLines(lines, goals, today))
      == if FirstHeader(lines) >= 0 then goals else goals + ParseLines(lines[..FirstHeading(lines)])
  {
    if FirstHeader(lines) >= 0 {
      SectionGoalsSpliced(lines, goals, today);
    } else {
      SectionGoalsInserted(lines, goals, today);
    }
  }

  lemma SectionGoalsSpliced(lines: seq<string>, goals: seq<Goal>, today: string)
    requires AllClean(goals)
    requires FirstHeader(lines) >= 0
    ensures SectionGoals(NewLines(lines, goals, today)) == goals
  {
    SplicedSectionBody(lines, goals, today);
    ParseRenderedGoals(goals);
  }

  lemma SectionGoalsInserted(lines: seq<string>, goals: seq<Goal>, today: string)
    requires NoLineTerminator(today)
    requires AllClean(goals)
    requires FirstHeader(lines) < 0
    ensures SectionGoals(NewLines(lines, goals, today)) == goals + ParseLines(lines[..FirstHeading(lines)])
  {
    InsertedSectionBody(lines, goals, today);
    ParseRenderedThen(goals, lines[..FirstHeading(lines)]);
  }

  /** The section of a rewritten note holds exactly the rendered goals. */
  lemma SplicedSectionBody(lines: seq<string>, goals: seq<Goal>, today: string)
    requires FirstHeader(lines) >= 0
    ensures SectionBody(NewLines(lines, goals, today)) == RenderGoals(goals)
  {
    var s := FirstHeader(lines);
    var post := lines[SectionEnd(lines, s + 1)..];
    SpliceShape(lines, goals, today);
    BeforeFirstHeader(lines);
    RenderedGoalsNotHeadings(goals);
    AfterSectionEnd(lines, s + 1);
    WrittenSectionBody(lines[..s], RenderGoals(goals), post);
    assert RenderGoals(goals) + post[..0] == RenderGoals(goals);
  }

  /** The body of a section put into a note runs over the rendered goals, the
      blank line and the note's lines above its first heading. */
  lemma InsertedSectionBody(lines: seq<string>, goals: seq<Goal>, today: string)
    requires NoLineTerminator(today)
    requires FirstHeader(lines) < 0
    ensures SectionBody(NewLines(lines, goals, today))
      == RenderGoals(goals) + [""] + lines[..FirstHeading(lines)]
  {
    InsertShape(lines, goals, today);
    NewTitlePlain(lines, today);
    InsertedBodyPlain(goals);
    WrittenSectionBody(NewTitle(lines, today), RenderGoals(goals) + [""], lines);
  }

  /** Rendered goals, a blank line and more lines read back as the goals and
      then the goals of the other lines. */
  lemma ParseRenderedThen(goals: seq<Goal>, rest: seq<string>)
    requires AllClean(goals)
    ensures ParseLines(RenderGoals(goals) + [""] + rest) == goals + ParseLines(rest)
  {
    var g := RenderGoals(goals);
    ParseRenderedGoals(goals);
    ParseLinesAppend(g + [""], rest);
    ParseLinesAppend(g, [""]);
    assert ParseLines([""]) == [];
  }

  /** Reading a note back after a write gives the goals written, followed, when
      the note had no section before, by the goals found on its lines above its
      first heading (the new section runs on over them). */
  lemma ExtractAfterReplace(content: string, goals: seq<Goal>, today: string)
    requires NoLineTerminator(today)
    requires AllClean(goals)
    ensures var lines := Split(content);
      Extracted(Replaced(content, goals, today))
      == if FirstHeader(lines) >= 0 then goals else goals + ParseLines(lines[..FirstHeading(lines)])
  {
    CleanGoalsOneLine(goals);
    ExtractedSection(Replaced(content, goals, today));
    SplitReplaced(content, goals, today);
    SectionGoalsOfNewLines(Split(content), goals, today);
  }
}
