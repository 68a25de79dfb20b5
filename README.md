# Weekly goals, modelled in Dafny

This project models the weekly-goals engine of the Proletarian Wizard Obsidian
plugin (`src/domain/WeeklyGoalsService.ts`). The engine keeps a short checkbox
list under a `## Weekly Goals` heading inside one markdown note per ISO week,
named `<folder>/<weekYear>-W<ww>.md`. It caches each week's list in
localStorage under `PW.WeeklyGoals.<key>`. When a week's note has no section
yet and the caller gives no goals, it carries last week's unchecked goals
forward.

The model has five modules:

- `Strings` — JavaScript string operations the engine relies on:
  - `split("\n")` and `join("\n")`, with their round trips;
  - `trim()` and the JS `\s` class (ECMAScript whitespace plus line terminators);
  - `padStart(2, "0")`, ASCII case folding, and integer formatting.
- `IsoWeek` — dates are integer day numbers, with day 0 = 1970-01-01. The ISO 8601 week-numbering year and week are computed by hand: a week belongs to the year of its Thursday. `WeekKey` is `getWeekKey`.
- `GoalLines`:
  - the goal record;
  - the five regular expressions written out as predicates: the header `^##\s+Weekly Goals\s*$` under the `i` and `m` flags, the `hadSection` pattern `(^|\n)##\s+Weekly Goals\s*($|\n)` under the `i` flag, the heading test `^#{1,6}\s+`, the title test `^#\s+`, and the item pattern `^\s*-\s*\[( |x|X)\]\s+(.*)$`;
  - rendering of goal lines and the line parser `parseGoalsFromSection`.
- `GoalSection` — the section locator and splicer:
  - `replaceGoalsSection` and `extractGoalsSection` as loop methods (`FindHeader`, `FindSectionEnd`);
  - each method is proved against a specification function (`Replaced`, `Extracted`), with lemmas about those functions.
- `WeeklyGoals` — the read and write paths:
  - the state is the vault (`files: map<string, string>`, where a missing key is a missing file) and localStorage (`cache: map<string, CacheEntry>`);
  - the class `WeeklyGoalsService` holds both maps as fields and has the methods `ReadGoals`, `ReadPreviousWeekUnchecked` and `WriteGoals`;
  - each method is proved equal to a function on the old state (`ReadFrom`, `PrevUnchecked`, `WriteTo`);
  - the promised properties are lemmas about those functions.

`DateTime.now()` in `replaceGoalsSection` is an explicit `now` day parameter.

Behaviours of the code that are easy to miss:

- An empty `goalsFolder` becomes `"Goals"`, so no note is written at the vault root.
- A note without a section that starts with a `# ` title gets the section inserted above the title, not below it.
  - A new note starts from the template `# <key>\n\n`, so the section always lands above the template's own title (`FreshNote`).
- The first write into a note that has no section is not idempotent (`SecondWriteAfterInsert`):
  - the second write drops the blank line after the block;
  - it also drops every line between the block and the next heading.

  Writing again into a note whose section the line search finds returns the same text when every goal text is on one line (`ReplaceIdempotent`). A goal text holding `\n# h` breaks this, because its second line ends the section on the next write. `WriteIdempotent` needs, besides those, non-empty goals or a section the `hadSection` pattern also sees.
- The line search and `hadSection` can disagree. The line search splits on `\n` only but tests under the `m` flag, so `x\r## Weekly Goals` has a header on its first line; `(^|\n)` does not see it (`HeaderAfterCarriageReturn`). An empty write to such a note reads last week's goals and, when there are unchecked ones, writes them into the section.
- A note saved with CRLF line ends keeps a `\r` at the end of each line after `split("\n")`. `(.*)` cannot take the `\r` and `$` does not match before it, so a line like `- [ ] buy milk\r` is not a goal (`CarriageReturnLineSkipped`). Such a note reads as no goals, and the next write replaces its old goal lines. A note with bare `\r` line ends is one line and behaves likewise.
- A carry-forward read of last week's goals can fill last week's cache entry as a side effect (`PrevUnchecked`).

## Model

| member | source | states |
|---|---|---|
| Strings.JoinSplit | src/domain/WeeklyGoalsService.ts:76 | joining the lines `split("\n")` returns gives back the text |
| Strings.SplitJoin | src/domain/WeeklyGoalsService.ts:95 | splitting joined lines that hold no `\n` gives back those lines |
| Strings.TrimFramed | src/domain/WeeklyGoalsService.ts:67 | `trim()` removes exactly the leading and trailing whitespace and keeps the middle |
| Strings.IntToStringRoundTrip | src/domain/WeeklyGoalsService.ts:15 | the decimal text of every integer reads back as that integer |
| Strings.PadStart2Zeros | src/domain/WeeklyGoalsService.ts:15 | `padStart(2, "0")` adds only `0` characters in front |
| IsoWeek.YearStartClosed | src/domain/WeeklyGoalsService.ts:15 | the first day of every Gregorian year in closed form (365 days a year plus the leap days before it) |
| IsoWeek.YearOfIs | src/domain/WeeklyGoalsService.ts:15 | a day between the start of year y and the start of year y+1 belongs to year y |
| IsoWeek.ThursdayRule | src/domain/WeeklyGoalsService.ts:15 | the Thursday of a day's week is 4 minus its ISO weekday days after it |
| IsoWeek.KeyRoundTrip | src/domain/WeeklyGoalsService.ts:15 | `<year>-W<ww>` parses back to the year and week for every week 1..53 |
| IsoWeek.WeekKey | src/domain/WeeklyGoalsService.ts:14-16 | definition: `<weekYear>-W<week, two digits>` of the day's ISO week |
| IsoWeek.WeekKeyIdentifiesWeek | src/domain/WeeklyGoalsService.ts:14-16 | two days have the same week key if and only if they are in the same ISO week |
| IsoWeek.SameWeekSameKey | src/domain/WeeklyGoalsService.ts:14-16 | all seven days Monday..Sunday of a week give the same key |
| IsoWeek.DaysOfTheWeek | src/domain/WeeklyGoalsService.ts:14-16 | all seven days Monday..Sunday of a week are in the same ISO week |
| IsoWeek.WeekOfDecember28th | src/domain/WeeklyGoalsService.ts:15 | the week before week 1 contains December 28th of the previous year |
| IsoWeek.PreviousWeek | src/domain/WeeklyGoalsService.ts:149 | the day 7 days earlier is in the previous week: same year and week−1, or, from week 1, the last week of the previous week-year |
| IsoWeek.WeekKeyIsPlain | src/domain/WeeklyGoalsService.ts:15 | a week key holds no line terminator |
| IsoWeek.WeekOfEpoch | src/domain/WeeklyGoalsService.ts:15 | 1970-01-01 is in 1970-W01 |
| IsoWeek.WeekOfDecember28th1969 | src/domain/WeeklyGoalsService.ts:15 | 1969-12-28 is in 1969-W52 |
| IsoWeek.WeekOfJanuaryThird2021 | src/domain/WeeklyGoalsService.ts:15 | 2021-01-03 is in 2020-W53 |
| GoalLines.HeaderLineWithoutTerminators | src/domain/WeeklyGoalsService.ts:75 | on a single line the multi-line header test is `##`, one or more spaces, "Weekly Goals" in any ASCII case, then only spaces |
| GoalLines.IsHeaderLine | src/domain/WeeklyGoalsService.ts:75 | definition: some span of the text bounded by text ends or line terminators is `##`, spaces, `Weekly Goals` in any ASCII case, then spaces |
| GoalLines.HadSection | src/domain/WeeklyGoalsService.ts:159 | definition: the same span test with `\n` alone as the boundary |
| GoalLines.IsHeading | src/domain/WeeklyGoalsService.ts:89 | definition: a leading run of one to six `#` (a seventh `#` fails), then a whitespace character |
| GoalLines.IsTitle | src/domain/WeeklyGoalsService.ts:98 | definition: one `#`, then at least one whitespace character |
| GoalLines.ParseItem | src/domain/WeeklyGoalsService.ts:63-68 | definition: leading spaces, `-`, spaces, a `[ ]`/`[x]`/`[X]` box, at least one space, then a rest without line terminators, trimmed; checked for `x` or `X` |
| GoalLines.RenderGoal | src/domain/WeeklyGoalsService.ts:84 | definition: `- [x] <text>` for a checked goal, `- [ ] <text>` otherwise |
| GoalLines.RenderSection | src/domain/WeeklyGoalsService.ts:84 | definition: the `## Weekly Goals` line followed by one rendered line per goal |
| GoalLines.CarriageReturnLineSkipped | src/domain/WeeklyGoalsService.ts:63 | a goal line ending in `\r` does not match the item pattern |
| GoalLines.TextWithCarriageReturn | src/domain/WeeklyGoalsService.ts:63 | after a non-empty space run stopping before a non-space, a trailing `\r` leaves the text stage without a match |
| GoalLines.SectionHeadingIsHeader | src/domain/WeeklyGoalsService.ts:84 | the rendered `## Weekly Goals` line passes the header test |
| GoalLines.TitleIsHeading | src/domain/WeeklyGoalsService.ts:89-98 | a `#\s+` title line is a heading for the `#{1,6}\s+` test |
| GoalLines.ParseText | src/domain/WeeklyGoalsService.ts:63-67 | a parsed goal text is trimmed and holds no line terminator |
| GoalLines.ParseItemIsPattern | src/domain/WeeklyGoalsService.ts:63-68 | the deterministic line parser returns a goal if and only if the item pattern matches the line with that goal (checked iff the box is `x` or `X`, text the trimmed capture) |
| GoalLines.ParseBoxIsPattern | src/domain/WeeklyGoalsService.ts:63 | the box stage returns a goal if and only if `\s*\[( \|x\|X)\]\s+(.*)$` matches |
| GoalLines.ParseTextIsPattern | src/domain/WeeklyGoalsService.ts:63-67 | the text stage returns a goal if and only if `\s+(.*)$` matches in some split of the spaces |
| GoalLines.ParseRenderedGoal | src/domain/WeeklyGoalsService.ts:63-84 | a rendered `- [x] t` / `- [ ] t` line parses back to its goal when the text is trimmed and on one line |
| GoalLines.RenderedGoalsNotHeadings | src/domain/WeeklyGoalsService.ts:84-89 | no rendered goal line is a heading, so a written section ends after its last goal |
| GoalLines.CleanGoalsOneLine | src/domain/WeeklyGoalsService.ts:84 | trimmed one-line goal texts render to lines without `\n` |
| GoalLines.ParseLinesClean | src/domain/WeeklyGoalsService.ts:59-72 | every parsed goal is clean |
| GoalLines.ParseLinesAppend | src/domain/WeeklyGoalsService.ts:62-70 | parsing keeps the matching lines in order: parsing a concatenation is the concatenation of the parses |
| GoalLines.ParseRenderedGoals | src/domain/WeeklyGoalsService.ts:59-84 | parsing the rendered lines of clean goals gives back exactly those goals |
| GoalLines.ParseGoalsFromSection | src/domain/WeeklyGoalsService.ts:59-72 | the loop returns the parse of the split lines |
| GoalSection.FirstHeaderIsHeader | src/domain/WeeklyGoalsService.ts:77-83 | the line the header search stops at is a header line |
| GoalSection.BeforeFirstHeader | src/domain/WeeklyGoalsService.ts:77-83 | no line before it, or no line at all when it finds none, is a header line |
| GoalSection.FirstHeadingIsHeading | src/domain/WeeklyGoalsService.ts:87-93 | the line the end search stops at is a heading |
| GoalSection.BeforeFirstHeading | src/domain/WeeklyGoalsService.ts:87-93 | no line before it is a heading |
| GoalSection.SectionEndIs | src/domain/WeeklyGoalsService.ts:87-93 | the section end is the first heading at or after the start, or the line count |
| GoalSection.NewLines | src/domain/WeeklyGoalsService.ts:74-103 | definition: with a header found, the lines before it, the rendered section and the lines from the next heading on; otherwise the section, a blank line and all lines, behind `# <key>` and a blank line unless the first line is a title |
| GoalSection.Replaced | src/domain/WeeklyGoalsService.ts:74-103 | definition: the new lines joined with `\n` |
| GoalSection.SectionBody | src/domain/WeeklyGoalsService.ts:105-126 | definition: the lines after the first header up to the next heading, or none when no header is found |
| GoalSection.Extracted | src/domain/WeeklyGoalsService.ts:105-126 | definition: no goals unless the header pattern matches the whole text and one of its lines; otherwise the goals parsed from the section body, joined and split again |
| GoalSection.HeaderAfterCarriageReturn | src/domain/WeeklyGoalsService.ts:159 | for `x\r## Weekly Goals` the line search finds a header on line 0 while `hadSection` is false |
| GoalSection.FindHeader | src/domain/WeeklyGoalsService.ts:77-116 | the loop with `break` returns the first header line's index, or −1 |
| GoalSection.FindSectionEnd | src/domain/WeeklyGoalsService.ts:87-124 | the loop with `break` returns the section end |
| GoalSection.ReplaceGoalsSection | src/domain/WeeklyGoalsService.ts:74-103 | the method returns the specification `Replaced` of the note, the goals and the key of `now` |
| GoalSection.ExtractGoalsSection | src/domain/WeeklyGoalsService.ts:105-126 | the method returns the specification `Extracted` of the note |
| GoalSection.ExtractedSection | src/domain/WeeklyGoalsService.ts:106-117 | the whole-text `search` early exit agrees with the line search, so extraction is the parse of the lines between the first header and the next heading |
| GoalSection.HeaderInNote | src/domain/WeeklyGoalsService.ts:106-112 | a header line found by the line search is also found by the whole-text search |
| GoalSection.NewLinesWithSection | src/domain/WeeklyGoalsService.ts:85-95 | after a splice the header stays at the same index, holds `## Weekly Goals`, and the section ends right after the goal lines |
| GoalSection.NewLinesWithoutSection | src/domain/WeeklyGoalsService.ts:96-102 | after an insertion the header sits right after the synthesized title (if any) and the section ends at the original first heading |
| GoalSection.ReplaceKeepsRestOfNote | src/domain/WeeklyGoalsService.ts:76-95 | with a section found, the lines before it and from the next heading on are kept verbatim and in order; the section's lines become `## Weekly Goals` and one line per goal |
| GoalSection.InsertKeepsNote | src/domain/WeeklyGoalsService.ts:96-102 | with no section, the output is the block, a blank line and the whole original text, behind `# <key of now>` and a blank line unless the first line is a `#\s+` title |
| GoalSection.ReplaceIdempotent | src/domain/WeeklyGoalsService.ts:74-95 | with a section found, writing the same goals again (on any day) returns identical text |
| GoalSection.ReplacedHasSection | src/domain/WeeklyGoalsService.ts:74-103 | every written note has a header line, and the carry-forward `hadSection` test sees it |
| GoalSection.SecondWriteShorter | src/domain/WeeklyGoalsService.ts:96-102 | a second write after an insertion yields fewer lines |
| GoalSection.SecondWriteAfterInsert | src/domain/WeeklyGoalsService.ts:85-102 | a second write after an insertion drops the blank line and any text before the first heading, so the first write is not idempotent |
| GoalSection.TitleLinesArePlain | src/domain/WeeklyGoalsService.ts:99 | the synthesized title and blank lines are neither headers nor (blank lines) headings |
| GoalSection.ExtractAfterReplace | src/domain/WeeklyGoalsService.ts:84-126 | extracting after a write returns the clean goals written, followed, when the section was inserted, by the goals of the old lines above the first heading |
| WeeklyGoals.GoalsFolder | src/domain/WeeklyGoalsService.ts:19 | the folder is never empty, is the setting when the setting is not empty, and is `Goals` when it is empty |
| WeeklyGoals.NotePath | src/domain/WeeklyGoalsService.ts:18-22 | definition: `<folder>/<week key>.md` |
| WeeklyGoals.CacheKey | src/domain/WeeklyGoalsService.ts:131 | definition: `PW.WeeklyGoals.<week key>` |
| WeeklyGoals.MaxOr3 | src/domain/WeeklyGoalsService.ts:167 | definition: `maxWeeklyGoals \|\| 3`: the setting, or 3 when it is 0 |
| WeeklyGoals.Unchecked | src/domain/WeeklyGoalsService.ts:151 | definition: the goals whose box is not checked, in order |
| WeeklyGoals.NotePathIdentifiesWeek | src/domain/WeeklyGoalsService.ts:18-22 | two days share a note path if and only if they are in the same ISO week |
| WeeklyGoals.CacheKeyIdentifiesWeek | src/domain/WeeklyGoalsService.ts:131-144 | two days share a cache key if and only if they are in the same ISO week |
| WeeklyGoals.Bounded | src/domain/WeeklyGoalsService.ts:167-168 | the slice is the first `min(len, max(1, maxWeeklyGoals \|\| 3))` goals |
| WeeklyGoals.TrimBound | src/domain/WeeklyGoalsService.ts:163-168 | an empty list stays empty, a non-empty one keeps between one and `maxWeeklyGoals \|\| 3` goals when that value is at least 1, and exactly one goal otherwise; the kept goals are always a prefix |
| WeeklyGoals.TrimTwice | src/domain/WeeklyGoalsService.ts:163-168 | the second trim of carried goals changes nothing |
| WeeklyGoals.UncheckedAppend | src/domain/WeeklyGoalsService.ts:151 | the filter keeps goals in order: it distributes over concatenation |
| WeeklyGoals.UncheckedMembers | src/domain/WeeklyGoalsService.ts:151 | every kept goal is unchecked and every unchecked goal is kept |
| WeeklyGoals.ReadFrom | src/domain/WeeklyGoalsService.ts:128-146 | a read never changes files, and changes the cache at most by storing the returned goals under the week's key |
| WeeklyGoals.ReadCachedIgnoresNote | src/domain/WeeklyGoalsService.ts:131-135 | a cached list is returned whatever the note says, and nothing changes |
| WeeklyGoals.ReadMissingNote | src/domain/WeeklyGoalsService.ts:138-142 | with no usable cache entry, a missing or empty note reads as no goals and changes nothing |
| WeeklyGoals.ReadNote | src/domain/WeeklyGoalsService.ts:138-145 | otherwise the read returns the goals of the note's section and caches exactly that list |
| WeeklyGoals.ReadTwice | src/domain/WeeklyGoalsService.ts:128-146 | reading the same week again gives the same goals and changes nothing |
| WeeklyGoals.PrevUnchecked | src/domain/WeeklyGoalsService.ts:148-152 | the previous-week read never changes files |
| WeeklyGoals.PrevUncheckedIsLastWeek | src/domain/WeeklyGoalsService.ts:148-152 | it reads the week just before and returns that week's unchecked goals |
| WeeklyGoals.Template | src/domain/WeeklyGoalsService.ts:157 | definition: `# <key>` and two line ends |
| WeeklyGoals.NoteOrTemplate | src/domain/WeeklyGoalsService.ts:157 | definition: the stored note, or the template of the week's key when the note is missing |
| WeeklyGoals.Chosen | src/domain/WeeklyGoalsService.ts:159-165 | definition: the carried goals when `hadSection` fails, the list is empty and last week has unchecked goals; otherwise the given goals |
| WeeklyGoals.Written | src/domain/WeeklyGoalsService.ts:163-168 | definition: the chosen goals cut to the first `max(1, min(maxWeeklyGoals \|\| 3, len))` |
| WeeklyGoals.WriteTo | src/domain/WeeklyGoalsService.ts:154-172 | definition: the note is replaced by the rewritten text and the written goals are cached under the week's key, after the carry-forward read's own cache change |
| WeeklyGoals.WriteFrame | src/domain/WeeklyGoalsService.ts:154-172 | a write caches the goals written, stores the rewritten note and leaves every other note alone |
| WeeklyGoals.CarryForwardRule | src/domain/WeeklyGoalsService.ts:159-165 | carry-forward changes the goals if and only if the note has no section, the given list is empty and last week has unchecked goals; it then uses those, trimmed |
| WeeklyGoals.CarriedGoalsUnchecked | src/domain/WeeklyGoalsService.ts:148-168 | carried goals are unchecked and form a prefix of last week's unchecked goals |
| WeeklyGoals.WriteKeepsFirstGoals | src/domain/WeeklyGoalsService.ts:167-171 | without carry-forward a write persists and caches exactly the first `min(len, max(1, maxWeeklyGoals \|\| 3))` goals |
| WeeklyGoals.ReadAfterWrite | src/domain/WeeklyGoalsService.ts:128-171 | a read right after a write returns the goals written, from the cache |
| WeeklyGoals.WriteIdempotent | src/domain/WeeklyGoalsService.ts:154-172 | writing the same one-line goals twice into a note whose section the line search finds leaves the files and cache as after the first write, when the goals are non-empty or `hadSection` also sees the section |
| WeeklyGoals.TemplateLines | src/domain/WeeklyGoalsService.ts:157 | the template splits into the title and two blank lines |
| WeeklyGoals.TemplateHasNoSection | src/domain/WeeklyGoalsService.ts:157-160 | the template fails the `hadSection` test, so an empty write to a new note looks for goals to carry |
| WeeklyGoals.TitledNoteRewrite | src/domain/WeeklyGoalsService.ts:96-126 | a titled note without a section gets the block above the title, and extraction returns the goals written |
| WeeklyGoals.FreshNote | src/domain/WeeklyGoalsService.ts:157-169 | a new note is the rendered section, a blank line and the template, and it reads back as the goals written |
| WeeklyGoals.WeeklyGoalsService.ReadGoals | src/domain/WeeklyGoalsService.ts:128-146 | the method returns the goals `ReadFrom` gives and leaves the state it gives |
| WeeklyGoals.WeeklyGoalsService.ReadPreviousWeekUnchecked | src/domain/WeeklyGoalsService.ts:148-152 | the method returns `PrevUnchecked` and leaves its state |
| WeeklyGoals.WeeklyGoalsService.WriteGoals | src/domain/WeeklyGoalsService.ts:154-172 | the method leaves the state `WriteTo` gives |

## Left out

- Vault I/O (`readFileContent`, `writeFileContent`, `ensureFolderExists`, folder creation) is not modelled, because it is host file-system work. The vault is a map from paths to contents:
  - a missing key is a missing file;
  - an empty string is an empty file;
  - a write stores the new text under the path.
- localStorage and JSON serialisation are not modelled, because they are host storage and a foreign parser. The cache maps keys to `Stored(goals)` or `Corrupt`:
  - `Corrupt` stands for both an empty string and text that `JSON.parse` rejects, since both fall through to the note;
  - a parsed value that is not a goal list is not modelled, because `JSON.parse` returns it unchecked.
- luxon `DateTime` is not modelled: dates are day numbers, and `DateTime.now()` is the explicit `now` parameter.
- Concurrent `writeGoals` calls and their lost updates are not modelled: the methods run one after another.
- A `maxWeeklyGoals` that is not an integer (NaN, fractions) is not modelled; the setting is an `int`.
- The branch of `getWeeklyNotePath` that writes a bare file name is kept in `NotePath` but can never be taken, because the folder is never empty.
- The item pattern's `.` is modelled by requiring the captured text to hold no line terminator. This matches `.` without the `s` flag.
