/** The line-level pieces of the weekly-goals section: the goal record, the
    regular expressions the service tests lines against (written out by hand,
    with JavaScript's meaning of `\s`, `.`, `^`, `$` and the `i` and `m` flags),
    the item parser and the canonical rendering of a goal list. */
module GoalLines {
  import opened Strings

  /** `WeeklyGoal`. */
  datatype Goal = Goal(text: string, checked: bool)

  /** A goal that survives rendering and parsing: its text is trimmed and holds no line break. */
  predicate IsCleanGoal(g: Goal) {
    IsTrimmed(g.text) && NoLineTerminator(g.text)
  }

  predicate AllClean(goals: seq<Goal>) {
    forall k :: 0 <= k < |goals| ==> IsCleanGoal(goals[k])
  }

  /** Each goal renders to exactly one line of the note. */
  predicate OneLineTexts(goals: seq<Goal>) {
    forall k :: 0 <= k < |goals| ==> '\n' !in goals[k].text
  }

  /** The heading line the service writes. */
  const SectionHeading: string := "## Weekly Goals"

  /* ---------------- the section header ---------------- */

  /** The whole of `s` matches `##\s+Weekly Goals\s*`, ASCII letters compared
      regardless of case. The `\s+` run must be maximal, since `W` is not a space. */
  predicate IsHeaderText(s: string) {
    |s| >= 2 && s[0] == '#' && s[1] == '#' &&
    var n := 2 + LeadingSpaces(s[2..]);
    n > 2 && n + 12 <= |s| && EqualsIgnoreCase(s[n..n + 12], "Weekly Goals") && AllSpace(s[n + 12..])
  }

  /** A match of the header pattern on `s[i..j]` with `^` and `$` read under the
      `m` flag: each end is an end of `s` or sits beside a line terminator. */
  predicate HeaderAt(s: string, i: int, j: int) {
    0 <= i <= j <= |s|
    && (i == 0 || IsLineTerminator(s[i - 1]))
    && (j == |s| || IsLineTerminator(s[j]))
    && IsHeaderText(s[i..j])
  }

  /** `/^##\s+Weekly Goals\s*$/im.test(s)`; on a whole document it is also
      `s.search(headerRegex) >= 0`. */
  predicate IsHeaderLine(s: string) {
    exists i, j | 0 <= i <= j <= |s| :: HeaderAt(s, i, j)
  }

  lemma HeaderLineAt(s: string, i: int, j: int)
    requires HeaderAt(s, i, j)
    ensures IsHeaderLine(s)
  {
  }

  /** A match of the pattern behind `hadSection` on `s[i..j]`: without the `m`
      flag, each end is an end of `s` or sits beside a `\n`. */
  predicate SectionAt(s: string, i: int, j: int) {
    0 <= i <= j <= |s|
    && (i == 0 || s[i - 1] == '\n')
    && (j == |s| || s[j] == '\n')
    && IsHeaderText(s[i..j])
  }

  /** `/(^|\n)##\s+Weekly Goals\s*($|\n)/i.test(content)`. */
  predicate HadSection(content: string) {
    exists i, j | 0 <= i <= j <= |content| :: SectionAt(content, i, j)
  }

  lemma HadSectionAt(s: string, i: int, j: int)
    requires SectionAt(s, i, j)
    ensures HadSection(s)
  {
  }

  /** On a line without line terminators the `m` flag changes nothing: the
      whole line has to match. */
  lemma HeaderLineWithoutTerminators(s: string)
    requires NoLineTerminator(s)
    ensures IsHeaderLine(s) <==> IsHeaderText(s)
  {
    if IsHeaderText(s) {
      assert s[0..|s|] == s;
      assert HeaderAt(s, 0, |s|);
    }
    if IsHeaderLine(s) {
      var i, j :| 0 <= i <= j <= |s| && HeaderAt(s, i, j);
      assert i == 0 && j == |s|;
      assert s[i..j] == s;
    }
  }

  lemma SectionHeadingText()
    ensures IsHeaderText(SectionHeading)
  {
    SectionHeadingSlices();
    OneSpaceBeforeTitle();
  }

  lemma SectionHeadingSlices()
    ensures SectionHeading[2..] == " Weekly Goals"
    ensures SectionHeading[3..15] == "Weekly Goals" && SectionHeading[15..] == ""
  {
  }

  lemma OneSpaceBeforeTitle()
    ensures LeadingSpaces(" Weekly Goals") == 1
  {
    LeadingSpacesAt(" Weekly Goals", 1);
  }

  lemma SectionHeadingOneLine()
    ensures NoLineTerminator(SectionHeading) && '\n' !in SectionHeading
  {
  }

  /** The written heading is found by the header pattern. */
  lemma SectionHeadingIsHeader()
    ensures IsHeaderLine(SectionHeading)
  {
    SectionHeadingText();
    SectionHeadingOneLine();
    HeaderLineWithoutTerminators(SectionHeading);
  }

  /* ---------------- headings and titles ---------------- */

  /** Length of the run of `#` that starts `s`. */
  function LeadingHashes(s: string): (n: nat)
    ensures n <= |s|
    ensures n < |s| ==> s[n] != '#'
  {
    if |s| > 0 && s[0] == '#' then 1 + LeadingHashes(s[1..]) else 0
  }

  /** `/^#{1,6}\s+/.test(line)`: one to six `#`, then a space. Seven or more `#`
      do not match, because `#{1,6}` cannot stop in front of another `#`. */
  predicate IsHeading(line: string) {
    var n := LeadingHashes(line);
    1 <= n <= 6 && n < |line| && IsSpace(line[n])
  }

  /** `/^#\s+/.test(line)`: a top-level title. */
  predicate IsTitle(line: string) {
    |line| >= 2 && line[0] == '#' && IsSpace(line[1])
  }

  lemma TitleIsHeading(line: string)
    requires IsTitle(line)
    ensures IsHeading(line)
  {
    assert LeadingHashes(line) == 1 by {
      assert LeadingHashes(line[1..]) == 0;
    }
  }

  /* ---------------- goal items ---------------- */

  /* The item pattern `/^\s*-\s*\[( |x|X)\]\s+(.*)$/` is read stage by stage;
     `checked` is set when the box holds `x` or `X`, and the goal's text is the
     capture group, trimmed. The capture `(.*)` cannot cross a line terminator. */

  /** `^\s*-` and the rest of the pattern after it. */
  function ParseItem(line: string): (r: Option<Goal>)
  {
    if |line| > 0 && IsSpace(line[0]) then ParseItem(line[1..])
    else if |line| > 0 && line[0] == '-' then ParseBox(line[1..])
    else None
  }

  /** `\s*\[( |x|X)\]` and the rest of the pattern after it. */
  function ParseBox(s: string): (r: Option<Goal>)
  {
    if |s| > 0 && IsSpace(s[0]) then ParseBox(s[1..])
    else if |s| >= 3 && s[0] == '[' && s[1] in {' ', 'x', 'X'} && s[2] == ']' then ParseText(s[3..], s[1] != ' ')
    else None
  }

  /** What the item parser reads is a clean goal. */
  lemma {:induction false} ParseItemClean(line: string)
    ensures ParseItem(line).Some? ==> IsCleanGoal(ParseItem(line).value)
    decreases |line|
  {
    if |line| > 0 && IsSpace(line[0]) {
      ParseItemClean(line[1..]);
    } else if |line| > 0 && line[0] == '-' {
      ParseBoxClean(line[1..]);
    }
  }

  lemma {:induction false} ParseBoxClean(s: string)
    ensures ParseBox(s).Some? ==> IsCleanGoal(ParseBox(s).value)
    decreases |s|
  {
    if |s| > 0 && IsSpace(s[0]) {
      ParseBoxClean(s[1..]);
    }
  }

  /** `\s+(.*)$`: the greedy `\s+` takes every leading space, and what is left
      must hold no line terminator. */
  function ParseText(s: string, checked: bool): (r: Option<Goal>)
    ensures r.Some? ==> IsCleanGoal(r.value)
  {
    var n := LeadingSpaces(s);
    if n > 0 && NoLineTerminator(s[n..]) then
      NoLineTerminatorInTrim(s[n..]);
      Some(Goal(Trim(s[n..]), checked))
    else None
  }

  /* The reference reading of the pattern: one predicate per stage, each
     existential over where its own part of the match ends, so that every way
     the pattern can match (however its space runs are divided) is included. */

  /** `\s+(.*)$` matches `s` with the capture starting at `w`. */
  ghost predicate TextMatchAt(s: string, w: int, checked: bool, g: Goal) {
    0 < w <= |s| && AllSpace(s[..w]) && NoLineTerminator(s[w..]) && g == Goal(Trim(s[w..]), checked)
  }

  ghost predicate TextMatches(s: string, checked: bool, g: Goal) {
    exists w :: TextMatchAt(s, w, checked, g)
  }

  /** `\s*\[( |x|X)\]` matches `s` with the `[` at `b`, and the rest matches after it. */
  ghost predicate BoxMatchAt(s: string, b: int, g: Goal) {
    0 <= b && b + 3 <= |s| && AllSpace(s[..b])
    && s[b] == '[' && s[b + 1] in {' ', 'x', 'X'} && s[b + 2] == ']'
    && TextMatches(s[b + 3..], s[b + 1] != ' ', g)
  }

  ghost predicate BoxMatches(s: string, g: Goal) {
    exists b :: BoxMatchAt(s, b, g)
  }

  /** `^\s*-` matches `line` with the dash at `a`, and the rest matches after it. */
  ghost predicate ItemMatchAt(line: string, a: int, g: Goal) {
    0 <= a < |line| && AllSpace(line[..a]) && line[a] == '-' && BoxMatches(line[a + 1..], g)
  }

  ghost predicate ItemMatches(line: string, g: Goal) {
    exists a :: ItemMatchAt(line, a, g)
  }

  lemma ParseTextIsPattern(s: string, checked: bool, g: Goal)
    ensures ParseText(s, checked) == Some(g) <==> TextMatches(s, checked, g)
  {
    if ParseText(s, checked) == Some(g) {
      LeadingSpacesAreSpaces(s);
      assert TextMatchAt(s, LeadingSpaces(s), checked, g);
    }
    if TextMatches(s, checked, g) {
      var w :| TextMatchAt(s, w, checked, g);
      ParseTextFromMatch(s, w, checked, g);
    }
  }

  /** Any split of the leading spaces between `\s+` and the capture gives the
      same trimmed text as the greedy one. */
  lemma ParseTextFromMatch(s: string, w: int, checked: bool, g: Goal)
    requires TextMatchAt(s, w, checked, g)
    ensures ParseText(s, checked) == Some(g)
  {
    GreedyCapture(s, w);
  }

  /** The greedy `\s+` stops at or after `w`, and the capture it leaves has
      the same trimmed text and still no line terminator. */
  lemma GreedyCapture(s: string, w: int)
    requires 0 < w <= |s| && AllSpace(s[..w]) && NoLineTerminator(s[w..])
    ensures var n := LeadingSpaces(s);
      w <= n && NoLineTerminator(s[n..]) && Trim(s[n..]) == Trim(s[w..])
  {
    var tail := s[w..];
    var k := LeadingSpaces(tail);
    GreedyLength(s, w);
    assert s[LeadingSpaces(s)..] == tail[k..];
    TrimAfterSpaces(tail);
    NoLineTerminatorSuffix(tail, k);
  }

  lemma GreedyLength(s: string, w: int)
    requires 0 <= w <= |s| && AllSpace(s[..w])
    ensures LeadingSpaces(s) == w + LeadingSpaces(s[w..])
  {
    assert s == s[..w] + s[w..];
    LeadingSpacesAppend(s[..w], s[w..]);
  }

  lemma TrimAfterSpaces(t: string)
    ensures Trim(t[LeadingSpaces(t)..]) == Trim(t)
  {
    var k := LeadingSpaces(t);
    LeadingSpacesAreSpaces(t);
    assert t == t[..k] + t[k..];
    TrimSkipsLeadingSpace(t[..k], t[k..]);
  }

  lemma NoLineTerminatorSuffix(t: string, k: nat)
    requires k <= |t| && NoLineTerminator(t)
    ensures NoLineTerminator(t[k..])
  {
    forall i | 0 <= i < |t[k..]|
      ensures !IsLineTerminator(t[k..][i])
    {
      assert t[k..][i] == t[k + i];
    }
  }

  lemma BoxMatchAtShiftIn(s: string, b: int, g: Goal)
    requires |s| > 0 && IsSpace(s[0]) && BoxMatchAt(s[1..], b, g)
    ensures BoxMatchAt(s, b + 1, g)
  {
    assert s[..b + 1] == [s[0]] + s[1..][..b];
    assert AllSpace(s[..b + 1]);
    assert s[b + 4..] == s[1..][b + 3..];
  }

  lemma BoxMatchAtShiftOut(s: string, b: int, g: Goal)
    requires |s| > 0 && IsSpace(s[0]) && BoxMatchAt(s, b, g)
    ensures BoxMatchAt(s[1..], b - 1, g)
  {
    assert b > 0;
    assert s[1..][..b - 1] == s[1..b];
    assert AllSpace(s[1..][..b - 1]);
    assert s[1..][b + 2..] == s[b + 3..];
  }

  /** A space in front of the box stage is taken by its `\s*`. */
  lemma BoxMatchesShift(s: string, g: Goal)
    requires |s| > 0 && IsSpace(s[0])
    ensures BoxMatches(s, g) <==> BoxMatches(s[1..], g)
  {
    if BoxMatches(s[1..], g) {
      var b :| BoxMatchAt(s[1..], b, g);
      BoxMatchAtShiftIn(s, b, g);
    }
    if BoxMatches(s, g) {
      var b :| BoxMatchAt(s, b, g);
      BoxMatchAtShiftOut(s, b, g);
    }
  }

  /** Without a leading space the box stage must start at the `[`. */
  lemma BoxMatchesHere(s: string, g: Goal)
    requires |s| == 0 || !IsSpace(s[0])
    ensures BoxMatches(s, g) <==>
      |s| >= 3 && s[0] == '[' && s[1] in {' ', 'x', 'X'} && s[2] == ']' && TextMatches(s[3..], s[1] != ' ', g)
  {
    if BoxMatches(s, g) {
      var b :| BoxMatchAt(s, b, g);
      BoxMatchStartsHere(s, b, g);
    }
    if |s| >= 3 && s[0] == '[' && s[1] in {' ', 'x', 'X'} && s[2] == ']' && TextMatches(s[3..], s[1] != ' ', g) {
      assert BoxMatchAt(s, 0, g);
    }
  }

  lemma BoxMatchStartsHere(s: string, b: int, g: Goal)
    requires |s| == 0 || !IsSpace(s[0])
    requires BoxMatchAt(s, b, g)
    ensures b == 0
  {
  }

  lemma {:induction false} ParseBoxIsPattern(s: string, g: Goal)
    ensures ParseBox(s) == Some(g) <==> BoxMatches(s, g)
    decreases |s|
  {
    if |s| > 0 && IsSpace(s[0]) {
      ParseBoxIsPattern(s[1..], g);
      BoxMatchesShift(s, g);
    } else {
      BoxMatchesHere(s, g);
      if |s| >= 3 && s[0] == '[' && s[1] in {' ', 'x', 'X'} && s[2] == ']' {
        ParseTextIsPattern(s[3..], s[1] != ' ', g);
      }
    }
  }

  lemma ItemMatchAtShiftIn(line: string, a: int, g: Goal)
    requires |line| > 0 && IsSpace(line[0]) && ItemMatchAt(line[1..], a, g)
    ensures ItemMatchAt(line, a + 1, g)
  {
    assert line[..a + 1] == [line[0]] + line[1..][..a];
    assert AllSpace(line[..a + 1]);
    assert line[a + 2..] == line[1..][a + 1..];
  }

  lemma ItemMatchAtShiftOut(line: string, a: int, g: Goal)
    requires |line| > 0 && IsSpace(line[0]) && ItemMatchAt(line, a, g)
    ensures ItemMatchAt(line[1..], a - 1, g)
  {
    assert a > 0;
    assert line[1..][..a - 1] == line[1..a];
    assert AllSpace(line[1..][..a - 1]);
    assert line[1..][a..] == line[a + 1..];
  }

  /** A space in front of the dash is taken by the leading `\s*`. */
  lemma ItemMatchesShift(line: string, g: Goal)
    requires |line| > 0 && IsSpace(line[0])
    ensures ItemMatches(line, g) <==> ItemMatches(line[1..], g)
  {
    if ItemMatches(line[1..], g) {
      var a :| ItemMatchAt(line[1..], a, g);
      ItemMatchAtShiftIn(line, a, g);
    }
    if ItemMatches(line, g) {
      var a :| ItemMatchAt(line, a, g);
      ItemMatchAtShiftOut(line, a, g);
    }
  }

  /** Without a leading space the line must start with the dash. */
  lemma ItemMatchesHere(line: string, g: Goal)
    requires |line| == 0 || !IsSpace(line[0])
    ensures ItemMatches(line, g) <==> |line| > 0 && line[0] == '-' && BoxMatches(line[1..], g)
  {
    if ItemMatches(line, g) {
      var a :| ItemMatchAt(line, a, g);
      ItemMatchStartsHere(line, a, g);
    }
    if |line| > 0 && line[0] == '-' && BoxMatches(line[1..], g) {
      assert ItemMatchAt(line, 0, g);
    }
  }

  lemma ItemMatchStartsHere(line: string, a: int, g: Goal)
    requires |line| == 0 || !IsSpace(line[0])
    requires ItemMatchAt(line, a, g)
    ensures a == 0
  {
  }

  /** The parser accepts exactly the lines the item pattern matches, and builds
      the record that the pattern's match determines. */
  lemma {:induction false} ParseItemIsPattern(line: string, g: Goal)
    ensures ParseItem(line) == Some(g) <==> ItemMatches(line, g)
    decreases |line|
  {
    if |line| > 0 && IsSpace(line[0]) {
      ParseItemIsPattern(line[1..], g);
      ItemMatchesShift(line, g);
    } else {
      ItemMatchesHere(line, g);
      if |line| > 0 && line[0] == '-' {
        ParseBoxIsPattern(line[1..], g);
      }
    }
  }

  /** A goal line of a note saved with CRLF line ends keeps its `\r` after
      `split("\n")`; `(.*)` cannot take it and `$` does not match before it,
      so the line is not a goal. */
  lemma CarriageReturnLineSkipped()
    ensures ParseItem("- [ ] buy milk\r") == None
  {
    var line := "- [ ] buy milk\r";
    UncheckedItemText(line);
    var t := line[5..];
    assert t[0] == ' ' && t[1] == 'b' && t[|t| - 1] == '\r';
    assert AllSpace(t[..1]);
    TextWithCarriageReturn(t, 1);
  }

  /** A line starting `- [ ]` hands the rest of the line to the text stage. */
  lemma UncheckedItemText(line: string)
    requires |line| >= 5 && line[0] == '-' && line[1] == ' ' && line[2] == '[' && line[3] == ' ' && line[4] == ']'
    ensures ParseItem(line) == ParseText(line[5..], false)
  {
    var box := line[1..];
    assert ParseItem(line) == ParseBox(box);
    var rest := box[1..];
    assert box[0] == ' ' && rest[0] == '[' && rest[1] == ' ' && rest[2] == ']';
    assert ParseBox(box) == ParseBox(rest);
    assert rest[3..] == line[5..];
  }

  /** Where the `\s+` run stops before a letter, a `\r` later on the line
      leaves no match. */
  lemma TextWithCarriageReturn(t: string, n: nat)
    requires n < |t| && AllSpace(t[..n]) && !IsSpace(t[n]) && t[|t| - 1] == '\r'
    ensures forall checked :: ParseText(t, checked) == None
  {
    LeadingSpacesAt(t, n);
    assert t[n..][|t| - 1 - n] == '\r';
  }

  /** `- [x] text` or `- [ ] text`. */
  function RenderGoal(g: Goal): string {
    "- [" + (if g.checked then "x" else " ") + "] " + g.text
  }

  function RenderGoals(goals: seq<Goal>): seq<string> {
    seq(|goals|, k requires 0 <= k < |goals| => RenderGoal(goals[k]))
  }

  /** `["## Weekly Goals", ...goals.map(...)]`. */
  function RenderSection(goals: seq<Goal>): seq<string> {
    [SectionHeading] + RenderGoals(goals)
  }

  /** A clean goal is read back from its rendered line unchanged. */
  lemma ParseRenderedGoal(g: Goal)
    requires IsCleanGoal(g)
    ensures ParseItem(RenderGoal(g)) == Some(g)
  {
    var b := ['[', if g.checked then 'x' else ' ', ']'] + ([' '] + g.text);
    RenderedGoalShape(g);
    ParseItemOfDash([' '] + b);
    ParseBoxOfSpace(b);
    ParseRenderedBox(g);
  }

  /** A rendered goal, character by character. */
  lemma RenderedGoalShape(g: Goal)
    ensures RenderGoal(g) == ['-'] + ([' '] + (['[', if g.checked then 'x' else ' ', ']'] + ([' '] + g.text)))
  {
  }

  lemma ParseItemOfDash(rest: string)
    ensures ParseItem(['-'] + rest) == ParseBox(rest)
  {
    assert (['-'] + rest)[1..] == rest;
  }

  lemma ParseBoxOfSpace(rest: string)
    ensures ParseBox([' '] + rest) == ParseBox(rest)
  {
    assert ([' '] + rest)[1..] == rest;
  }

  /** The box and the text of a rendered goal read back as the goal. */
  lemma ParseRenderedBox(g: Goal)
    requires IsCleanGoal(g)
    ensures ParseBox(['[', if g.checked then 'x' else ' ', ']'] + ([' '] + g.text)) == Some(g)
  {
    var s := [' '] + g.text;
    var b := ['[', if g.checked then 'x' else ' ', ']'] + s;
    ParseRenderedText(g);
    assert b[3..] == s;
  }

  /** The space and the text of a rendered goal read back as the goal. */
  lemma ParseRenderedText(g: Goal)
    requires IsCleanGoal(g)
    ensures ParseText([' '] + g.text, g.checked) == Some(g)
  {
    var s := [' '] + g.text;
    LeadingSpacesAppend([' '], g.text);
    LeadingSpacesAt(g.text, 0);
    assert s[1..] == g.text;
    TrimOfTrimmed(g.text);
  }

  /** A rendered goal line is never a heading, and it is a line of its own
      when its text is. */
  lemma RenderedGoalIsPlainLine(g: Goal)
    ensures !IsHeading(RenderGoal(g))
    ensures '\n' !in g.text ==> '\n' !in RenderGoal(g)
    ensures NoLineTerminator(g.text) ==> !IsHeaderLine(RenderGoal(g))
  {
    var line := RenderGoal(g);
    assert LeadingHashes(line) == 0;
    assert line == ['-', ' ', '[', if g.checked then 'x' else ' ', ']', ' '] + g.text;
    if NoLineTerminator(g.text) {
      assert NoLineTerminator(line);
      HeaderLineWithoutTerminators(line);
    }
  }

  /** No rendered goal line is a heading, so a written section runs over all
      of its goals. */
  lemma RenderedGoalsNotHeadings(goals: seq<Goal>)
    ensures forall k :: 0 <= k < |goals| ==> !IsHeading(RenderGoals(goals)[k])
  {
    forall k | 0 <= k < |goals| ensures !IsHeading(RenderGoals(goals)[k]) {
      RenderedGoalIsPlainLine(goals[k]);
    }
  }

  /** The rendered section is made of lines when every goal text is one line. */
  lemma RenderedSectionOneLine(goals: seq<Goal>)
    requires OneLineTexts(goals)
    ensures NoNewlines(RenderSection(goals))
  {
    SectionHeadingOneLine();
    forall k | 0 <= k < |RenderSection(goals)| ensures '\n' !in RenderSection(goals)[k] {
      if k > 0 {
        assert RenderSection(goals)[k] == RenderGoals(goals)[k - 1];
        RenderedGoalIsPlainLine(goals[k - 1]);
      }
    }
  }

  lemma CleanGoalsOneLine(goals: seq<Goal>)
    requires AllClean(goals)
    ensures OneLineTexts(goals)
  {
    forall k | 0 <= k < |goals| ensures '\n' !in goals[k].text {
      assert NoLineTerminator(goals[k].text);
    }
  }

  /* ---------------- parsing a block of lines ---------------- */

  /** The goals of a block of lines: in order, one per line the item pattern
      matches; every other line is skipped. */
  function ParseLines(lines: seq<string>): (goals: seq<Goal>)
    ensures |goals| <= |lines|
  {
    if |lines| == 0 then []
    else
      var init := ParseLines(lines[..|lines| - 1]);
      match ParseItem(lines[|lines| - 1])
      case Some(g) => init + [g]
      case None => init
  }

  /** Every goal read from a block is clean. */
  lemma {:induction false} ParseLinesClean(lines: seq<string>)
    ensures AllClean(ParseLines(lines))
    decreases |lines|
  {
    if |lines| > 0 {
      ParseLinesClean(lines[..|lines| - 1]);
      ParseItemClean(lines[|lines| - 1]);
    }
  }

  lemma {:induction false} ParseLinesAppend(a: seq<string>, b: seq<string>)
    ensures ParseLines(a + b) == ParseLines(a) + ParseLines(b)
    decreases |b|
  {
    if |b| == 0 {
      assert a + b == a;
    } else {
      var b', last := b[..|b| - 1], b[|b| - 1];
      ParseLinesAppend(a, b');
      var c := a + b;
      assert c[..|c| - 1] == a + b' && c[|c| - 1] == last;
      match ParseItem(last)
      case Some(g) =>
        assert ParseLines(c) == ParseLines(a + b') + [g];
        assert ParseLines(b) == ParseLines(b') + [g];
      case None =>
        assert ParseLines(c) == ParseLines(a + b');
    }
  }

  /** Parsing the rendered goal lines gives back the goals. */
  lemma {:induction false} ParseRenderedGoals(goals: seq<Goal>)
    requires AllClean(goals)
    ensures ParseLines(RenderGoals(goals)) == goals
    decreases |goals|
  {
    if |goals| > 0 {
      var n := |goals| - 1;
      ParseRenderedGoals(goals[..n]);
      assert RenderGoals(goals)[..n] == RenderGoals(goals[..n]);
      ParseRenderedGoal(goals[n]);
      assert goals[..n] + [goals[n]] == goals;
    }
  }

  /** `parseGoalsFromSection`: split the section into lines, keep the goal of
      each line the item pattern matches. */
  method ParseGoalsFromSection(sectionContent: string) returns (goals: seq<Goal>)
    ensures goals == ParseLines(Split(sectionContent))
  {
    var lines := Split(sectionContent);
    goals := [];
    for i := 0 to |lines|
      invariant goals == ParseLines(lines[..i])
    {
      assert lines[..i + 1][..i] == lines[..i];
      var m := ParseItem(lines[i]);
      if m.Some? {
        goals := goals + [m.value];
      }
    }
    assert lines[..|lines|] == lines;
  }
}
