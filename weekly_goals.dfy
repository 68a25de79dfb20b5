/** `WeeklyGoalsService`: one note per ISO week in the goals folder, a cache
    entry per week, and the read and write paths over both, with the bound on
    the number of goals and the carry-forward of last week's unfinished goals.
    The vault is a map from paths to file contents (a missing key is a file
    that does not exist) and localStorage a map from keys to cache entries. */
module WeeklyGoals {
  import opened Strings
  import opened IsoWeek
  import opened GoalLines
  import opened GoalSection

  /** The two settings the service reads. */
  datatype Settings = Settings(goalsFolder: string, maxWeeklyGoals: int)

  /** A localStorage entry: a list that `JSON.parse` reads back, or text that
      makes the read fall through to the note (an empty string, or text that
      does not parse). */
  datatype CacheEntry = Stored(goals: seq<Goal>) | Corrupt

  /** The service's whole state: the vault's files and the cache. */
  datatype Store = Store(files: map<string, string>, cache: map<string, CacheEntry>)

  /** What a read returns, with the state it leaves behind. */
  datatype ReadOutcome = ReadOutcome(goals: seq<Goal>, store: Store)

  function Min(a: int, b: int): int {
    if a <= b then a else b
  }

  function Max(a: int, b: int): int {
    if a >= b then a else b
  }

  /* ---------------- names ---------------- */

  /** `${cachePrefix}.${key}`. */
  function CacheKey(key: string): string {
    "PW.WeeklyGoals" + "." + key
  }

  /** `settings.goalsFolder || "Goals"`. */
  function GoalsFolder(settings: Settings): (folder: string)
    ensures folder != ""
    ensures settings.goalsFolder != "" ==> folder == settings.goalsFolder
    ensures settings.goalsFolder == "" ==> folder == "Goals"
  {
    if settings.goalsFolder == "" then "Goals" else settings.goalsFolder
  }

  /** `getWeeklyNotePath`: `<folder>/<week key>.md`; the branch without a
      folder is never taken, since the folder is never empty. */
  function NotePath(settings: Settings, d: Day): string {
    var folder := GoalsFolder(settings);
    var fileName := WeekKey(d) + ".md";
    if folder != "" then folder + "/" + fileName else fileName
  }

  /** Two days share a note exactly when they are in the same ISO week. */
  lemma NotePathIdentifiesWeek(settings: Settings, d1: Day, d2: Day)
    ensures NotePath(settings, d1) == NotePath(settings, d2) <==> WeekIndex(d1) == WeekIndex(d2)
  {
    var a := GoalsFolder(settings) + "/";
    assert NotePath(settings, d1) == a + WeekKey(d1) + ".md";
    assert NotePath(settings, d2) == a + WeekKey(d2) + ".md";
    if NotePath(settings, d1) == NotePath(settings, d2) {
      CancelAround(a, WeekKey(d1), WeekKey(d2), ".md");
    }
    WeekKeyIdentifiesWeek(d1, d2);
  }

  /** Two days share a cache entry exactly when they are in the same ISO week. */
  lemma CacheKeyIdentifiesWeek(d1: Day, d2: Day)
    ensures CacheKey(WeekKey(d1)) == CacheKey(WeekKey(d2)) <==> WeekIndex(d1) == WeekIndex(d2)
  {
    var a := "PW.WeeklyGoals" + ".";
    if CacheKey(WeekKey(d1)) == CacheKey(WeekKey(d2)) {
      CancelAround(a, WeekKey(d1), WeekKey(d2), []);
      assert WeekKey(d1) == WeekKey(d2);
    }
    WeekKeyIdentifiesWeek(d1, d2);
  }

  /* ---------------- the bound ---------------- */

  /** `maxWeeklyGoals || 3`: 0 is falsy and becomes 3. */
  function MaxOr3(m: int): int {
    if m == 0 then 3 else m
  }

  /** `goals.slice(0, Math.max(1, Math.min(maxWeeklyGoals || 3, goals.length)))`;
      `slice` stops at the end of the list. */
  function Bounded(m: int, goals: seq<Goal>): (r: seq<Goal>)
    ensures r == goals[..Min(|goals|, Max(1, MaxOr3(m)))]
  {
    var limit := Max(1, Min(MaxOr3(m), |goals|));
    goals[..Min(limit, |goals|)]
  }

  /** The first goals, at most `maxWeeklyGoals || 3` of them and at least one
      when there are any; an empty list stays empty. */
  lemma TrimBound(m: int, goals: seq<Goal>)
    ensures |goals| == 0 ==> Bounded(m, goals) == []
    ensures |goals| > 0 ==> 1 <= |Bounded(m, goals)|
    ensures MaxOr3(m) >= 1 ==> |Bounded(m, goals)| <= MaxOr3(m)
    ensures MaxOr3(m) < 1 ==> |Bounded(m, goals)| == Min(|goals|, 1)
    ensures |Bounded(m, goals)| <= |goals| && Bounded(m, goals) == goals[..|Bounded(m, goals)|]
  {
  }

  /** Trimming twice is trimming once. */
  lemma TrimTwice(m: int, goals: seq<Goal>)
    ensures Bounded(m, Bounded(m, goals)) == Bounded(m, goals)
  {
    var t := Bounded(m, goals);
    assert t[..Min(|t|, Max(1, MaxOr3(m)))] == t;
  }

  /** A part of a list of one-line goals is a list of one-line goals. */
  lemma TrimKeepsLines(m: int, goals: seq<Goal>)
    requires OneLineTexts(goals)
    ensures OneLineTexts(Bounded(m, goals))
  {
    var t := Bounded(m, goals);
    assert forall k :: 0 <= k < |t| ==> t[k] == goals[k];
  }

  lemma TrimKeepsClean(m: int, goals: seq<Goal>)
    requires AllClean(goals)
    ensures AllClean(Bounded(m, goals))
  {
    var t := Bounded(m, goals);
    assert forall k :: 0 <= k < |t| ==> t[k] == goals[k];
  }

  /* ---------------- unfinished goals ---------------- */

  /** `goals.filter((g) => !g.checked)`. */
  function Unchecked(goals: seq<Goal>): seq<Goal> {
    if |goals| == 0 then []
    else (if goals[0].checked then [] else [goals[0]]) + Unchecked(goals[1..])
  }

  /** The filter keeps exactly the unchecked goals, in order: it distributes
      over concatenation and keeps a single goal just when it is unchecked. */
  lemma {:induction false} UncheckedAppend(a: seq<Goal>, b: seq<Goal>)
    ensures Unchecked(a + b) == Unchecked(a) + Unchecked(b)
  {
    if |a| > 0 {
      assert (a + b)[1..] == a[1..] + b;
      UncheckedAppend(a[1..], b);
    } else {
      assert a + b == b;
    }
  }

  /** Every goal kept is unchecked, and every unchecked goal is kept. */
  lemma {:induction false} UncheckedMembers(goals: seq<Goal>)
    ensures forall k :: 0 <= k < |Unchecked(goals)| ==> !Unchecked(goals)[k].checked
    ensures forall g :: g in goals && !g.checked ==> g in Unchecked(goals)
  {
    if |goals| > 0 {
      UncheckedMembers(goals[1..]);
      var head := if goals[0].checked then [] else [goals[0]];
      var r := Unchecked(goals);
      assert r == head + Unchecked(goals[1..]);
      forall g | g in goals && !g.checked
        ensures g in r
      {
        if g != goals[0] {
          assert g in goals[1..];
        }
      }
    }
  }

  /* ---------------- reading ---------------- */

  /** `readGoals(date)`: a cache entry that parses is returned as it is; then a
      missing or empty note gives no goals and leaves everything alone;
      otherwise the goals of the note's section are read and cached. */
  function ReadFrom(settings: Settings, s: Store, d: Day): (r: ReadOutcome)
    ensures r.store.files == s.files
    ensures r.store.cache == s.cache || r.store.cache == s.cache[CacheKey(WeekKey(d)) := Stored(r.goals)]
  {
    var ck := CacheKey(WeekKey(d));
    if ck in s.cache && s.cache[ck].Stored? then ReadOutcome(s.cache[ck].goals, s)
    else
      var path := NotePath(settings, d);
      if path !in s.files || s.files[path] == "" then ReadOutcome([], s)
      else
        var goals := Extracted(s.files[path]);
        ReadOutcome(goals, s.(cache := s.cache[ck := Stored(goals)]))
  }

  /** A cached list is returned whatever the note now says (the cache can be
      stale). */
  lemma ReadCachedIgnoresNote(settings: Settings, s: Store, files: map<string, string>, d: Day)
    requires CacheKey(WeekKey(d)) in s.cache && s.cache[CacheKey(WeekKey(d))].Stored?
    ensures ReadFrom(settings, s.(files := files), d).goals == s.cache[CacheKey(WeekKey(d))].goals
    ensures ReadFrom(settings, s, d).store == s
  {
  }

  /** Without a usable cache entry, a missing or empty note reads as no goals
      and changes nothing. */
  lemma ReadMissingNote(settings: Settings, s: Store, d: Day)
    requires !(CacheKey(WeekKey(d)) in s.cache && s.cache[CacheKey(WeekKey(d))].Stored?)
    requires NotePath(settings, d) !in s.files || s.files[NotePath(settings, d)] == ""
    ensures ReadFrom(settings, s, d) == ReadOutcome([], s)
  {
  }

  /** Otherwise the read returns the goals on the lines of the note's section,
      and caches exactly those; they are clean goals. */
  lemma ReadNote(settings: Settings, s: Store, d: Day)
    requires !(CacheKey(WeekKey(d)) in s.cache && s.cache[CacheKey(WeekKey(d))].Stored?)
    requires NotePath(settings, d) in s.files && s.files[NotePath(settings, d)] != ""
    ensures var r := ReadFrom(settings, s, d);
      var note := s.files[NotePath(settings, d)];
      r.goals == SectionGoals(Split(note)) && AllClean(r.goals)
      && r.store.cache == s.cache[CacheKey(WeekKey(d)) := Stored(r.goals)]
  {
    var note := s.files[NotePath(settings, d)];
    ExtractedSection(note);
    ParseLinesClean(SectionBody(Split(note)));
  }

  /** Reading the same week again gives the same goals and changes nothing. */
  lemma ReadTwice(settings: Settings, s: Store, d: Day)
    ensures var r := ReadFrom(settings, s, d);
      ReadFrom(settings, r.store, d) == ReadOutcome(r.goals, r.store)
  {
  }

  /** `readPreviousWeekUnchecked(date)`: the unchecked goals of the week seven
      days earlier, read (and possibly cached) as `readGoals` does. */
  function PrevUnchecked(settings: Settings, s: Store, d: Day): (r: ReadOutcome)
    ensures r.store.files == s.files
  {
    var prev := ReadFrom(settings, s, d - 7);
    ReadOutcome(Unchecked(prev.goals), prev.store)
  }

  /** The previous week is read under the key of the week before. */
  lemma PrevUncheckedIsLastWeek(settings: Settings, s: Store, d: Day)
    ensures WeekIndex(d - 7) == WeekIndex(d) - 1
    ensures forall k :: 0 <= k < |PrevUnchecked(settings, s, d).goals| ==> !PrevUnchecked(settings, s, d).goals[k].checked
    ensures PrevUnchecked(settings, s, d).goals == Unchecked(ReadFrom(settings, s, d - 7).goals)
  {
    PreviousWeek(d);
    UncheckedMembers(ReadFrom(settings, s, d - 7).goals);
  }

  /* ---------------- writing ---------------- */

  /** The text of a note that does not exist yet: `# <key>\n\n`. */
  function Template(key: string): string {
    TitleLine(key) + "\n\n"
  }

  /** The text `writeGoals` starts from: the note, or the template when the
      note does not exist (an empty note is kept as it is). */
  function NoteOrTemplate(settings: Settings, s: Store, d: Day): string {
    var path := NotePath(settings, d);
    if path in s.files then s.files[path] else Template(WeekKey(d))
  }

  /** The goals `writeGoals` goes on with, and the state after the
      carry-forward read: when the note has no section (by the `hadSection`
      pattern) and no goals are given, last week's unchecked goals, trimmed,
      if there are any. */
  function Chosen(settings: Settings, s: Store, d: Day, goals: seq<Goal>): ReadOutcome {
    var content := NoteOrTemplate(settings, s, d);
    if !HadSection(content) && |goals| == 0 then
      var carry := PrevUnchecked(settings, s, d);
      ReadOutcome(if |carry.goals| > 0 then Bounded(settings.maxWeeklyGoals, carry.goals) else goals, carry.store)
    else
      ReadOutcome(goals, s)
  }

  /** The goals a write persists and caches. */
  function Written(settings: Settings, s: Store, d: Day, goals: seq<Goal>): seq<Goal> {
    Bounded(settings.maxWeeklyGoals, Chosen(settings, s, d, goals).goals)
  }

  /** `writeGoals(date, goals)` on day `now`: the note gets the rewritten text
      and the week's cache entry the goals written. */
  function WriteTo(settings: Settings, s: Store, d: Day, goals: seq<Goal>, now: Day): Store
  {
    var c := Chosen(settings, s, d, goals);
    var trimmed := Bounded(settings.maxWeeklyGoals, c.goals);
    var content := NoteOrTemplate(settings, s, d);
    Store(c.store.files[NotePath(settings, d) := Replaced(content, trimmed, WeekKey(now))],
          c.store.cache[CacheKey(WeekKey(d)) := Stored(trimmed)])
  }

  /** A write stores the goals written under the week's cache key, rewrites
      the week's note and leaves every other note as it was. */
  lemma WriteFrame(settings: Settings, s: Store, d: Day, goals: seq<Goal>, now: Day)
    ensures var r := WriteTo(settings, s, d, goals, now);
      NotePath(settings, d) in r.files && CacheKey(WeekKey(d)) in r.cache
      && r.cache[CacheKey(WeekKey(d))] == Stored(Written(settings, s, d, goals))
      && r.files[NotePath(settings, d)] == Replaced(NoteOrTemplate(settings, s, d), Written(settings, s, d, goals), WeekKey(now))
      && forall p :: p in s.files && p != NotePath(settings, d) ==> p in r.files && r.files[p] == s.files[p]
  {
  }

  /** Carry-forward fires exactly when the note has no section, no goals are
      given and last week has unchecked goals; it then uses those, trimmed, and
      looks no further back than last week. */
  lemma CarryForwardRule(settings: Settings, s: Store, d: Day, goals: seq<Goal>)
    ensures var content := NoteOrTemplate(settings, s, d);
      var carry := PrevUnchecked(settings, s, d);
      var c := Chosen(settings, s, d, goals);
      (c.goals != goals <==> !HadSection(content) && |goals| == 0 && |carry.goals| > 0)
      && (c.goals != goals ==> c.goals == Bounded(settings.maxWeeklyGoals, carry.goals))
  {
    var carry := PrevUnchecked(settings, s, d);
    TrimBound(settings.maxWeeklyGoals, carry.goals);
  }

  /** Carried goals are unchecked goals of last week, in their order there. */
  lemma CarriedGoalsUnchecked(settings: Settings, s: Store, d: Day, goals: seq<Goal>)
    requires Chosen(settings, s, d, goals).goals != goals
    ensures var w := Written(settings, s, d, goals);
      forall k :: 0 <= k < |w| ==> !w[k].checked
    ensures Written(settings, s, d, goals)
      <= Unchecked(ReadFrom(settings, s, d - 7).goals)
  {
    var prev := ReadFrom(settings, s, d - 7).goals;
    var m := settings.maxWeeklyGoals;
    CarryForwardRule(settings, s, d, goals);
    PrevUncheckedIsLastWeek(settings, s, d);
    assert Written(settings, s, d, goals) == Bounded(m, Bounded(m, Unchecked(prev)));
    BoundedUnchecked(m, prev);
  }

  /** The unchecked goals of a list, trimmed twice, are unchecked and come
      first among them. */
  lemma BoundedUnchecked(m: int, goals: seq<Goal>)
    ensures var w := Bounded(m, Bounded(m, Unchecked(goals)));
      (forall k :: 0 <= k < |w| ==> !w[k].checked) && w <= Unchecked(goals)
  {
    var u := Unchecked(goals);
    UncheckedMembers(goals);
    TrimTwice(m, u);
    TrimBound(m, u);
    var w := Bounded(m, u);
    assert w == u[..|w|];
    assert forall k :: 0 <= k < |w| ==> w[k] == u[k];
  }

  /** Without carry-forward, a write persists and caches the first
      `min(|goals|, max(1, maxWeeklyGoals || 3))` goals in their order, and
      every other note is left alone. */
  lemma WriteKeepsFirstGoals(settings: Settings, s: Store, d: Day, goals: seq<Goal>, now: Day)
    requires |goals| > 0 || HadSection(NoteOrTemplate(settings, s, d))
    ensures var n := Min(|goals|, Max(1, MaxOr3(settings.maxWeeklyGoals)));
      var r := WriteTo(settings, s, d, goals, now);
      Written(settings, s, d, goals) == goals[..n]
      && r == Store(s.files[NotePath(settings, d) := Replaced(NoteOrTemplate(settings, s, d), goals[..n], WeekKey(now))],
                    s.cache[CacheKey(WeekKey(d)) := Stored(goals[..n])])
  {
  }

  /** A read right after a write returns the goals written, from the cache. */
  lemma ReadAfterWrite(settings: Settings, s: Store, d: Day, goals: seq<Goal>, now: Day)
    ensures var r := WriteTo(settings, s, d, goals, now);
      ReadFrom(settings, r, d) == ReadOutcome(Written(settings, s, d, goals), r)
  {
  }

  /** The note a write leaves behind is one a second write of the same goals
      leaves as it is. */
  lemma RewrittenNoteStable(content: string, goals: seq<Goal>, m: int, now: Day, later: Day)
    requires OneLineTexts(goals)
    requires FirstHeader(Split(content)) >= 0
    ensures var text := Replaced(content, Bounded(m, goals), WeekKey(now));
      Replaced(text, Bounded(m, goals), WeekKey(later)) == text
  {
    TrimKeepsLines(m, goals);
    ReplaceIdempotent(content, Bounded(m, goals), WeekKey(now), WeekKey(later));
  }

  /** Writing the same goals again into a note that has a section changes
      nothing, whatever day the second write happens on. An empty list is
      covered when the `hadSection` pattern also sees the section, since
      otherwise the write looks for goals to carry forward. */
  lemma WriteIdempotent(settings: Settings, s: Store, d: Day, goals: seq<Goal>, now: Day, later: Day)
    requires OneLineTexts(goals)
    requires NotePath(settings, d) in s.files
    requires FirstHeader(Split(s.files[NotePath(settings, d)])) >= 0
    requires |goals| > 0 || HadSection(s.files[NotePath(settings, d)])
    ensures var once := WriteTo(settings, s, d, goals, now);
      WriteTo(settings, once, d, goals, later) == once
  {
    var path := NotePath(settings, d);
    var m := settings.maxWeeklyGoals;
    var t := Bounded(m, goals);
    var once := WriteTo(settings, s, d, goals, now);
    WriteWith(settings, s, d, goals, now);
    var text := Replaced(s.files[path], t, WeekKey(now));
    assert NoteOrTemplate(settings, once, d) == text;
    WrittenNoteHasSection(s.files[path], goals, m, now);
    WriteWith(settings, once, d, goals, later);
    RewrittenNoteStable(s.files[path], goals, m, now, later);
    StoreAgain(s, path, CacheKey(WeekKey(d)), text, t);
  }

  /** A note a write leaves behind has a section the `hadSection` pattern
      sees. */
  lemma WrittenNoteHasSection(content: string, goals: seq<Goal>, m: int, now: Day)
    requires OneLineTexts(goals)
    ensures HadSection(Replaced(content, Bounded(m, goals), WeekKey(now)))
  {
    WeekKeyIsPlain(now);
    TrimKeepsLines(m, goals);
    ReplacedHasSection(content, Bounded(m, goals), WeekKey(now));
  }

  /** A write of given goals, or of any list into a note the `hadSection`
      pattern matches, spelled out. */
  lemma WriteWith(settings: Settings, s: Store, d: Day, goals: seq<Goal>, now: Day)
    requires |goals| > 0 || HadSection(NoteOrTemplate(settings, s, d))
    ensures var t := Bounded(settings.maxWeeklyGoals, goals);
      WriteTo(settings, s, d, goals, now)
      == Store(s.files[NotePath(settings, d) := Replaced(NoteOrTemplate(settings, s, d), t, WeekKey(now))],
               s.cache[CacheKey(WeekKey(d)) := Stored(t)])
  {
  }

  /** Storing the same note text and cache entry twice is storing them once. */
  lemma StoreAgain(s: Store, path: string, ck: string, text: string, t: seq<Goal>)
    ensures var once := Store(s.files[path := text], s.cache[ck := Stored(t)]);
      Store(once.files[path := text], once.cache[ck := Stored(t)]) == once
  {
    var once := Store(s.files[path := text], s.cache[ck := Stored(t)]);
    assert once.files[path := text] == once.files;
    assert once.cache[ck := Stored(t)] == once.cache;
  }

  /* ---------------- a note written for the first time ---------------- */

  lemma TemplateLines(key: string)
    requires NoLineTerminator(key)
    ensures Split(Template(key)) == [TitleLine(key), "", ""]
  {
    var t := TitleLine(key);
    TitleLinesArePlain(key);
    JoinLineBlank(t, [""]);
    assert [t, ""] + [""] == [t, "", ""];
    assert Join([t, "", ""]) == Template(key);
    SplitJoin([t, "", ""]);
  }

  /** The template has no header line and starts with a title. */
  lemma TemplateHasNoHeader(key: string)
    requires NoLineTerminator(key)
    ensures FirstHeader(Split(Template(key))) < 0
    ensures IsTitle(Split(Template(key))[0]) && FirstHeading(Split(Template(key))) == 0
  {
    var lines := Split(Template(key));
    TemplateLines(key);
    TitleLinesArePlain(key);
    FirstHeaderIs(lines, -1);
    TitleIsHeading(lines[0]);
  }

  /** Nor does the `hadSection` pattern match it, so an empty write to a new
      note looks for goals to carry forward. */
  lemma TemplateHasNoSection(key: string)
    requires '\n' !in key
    ensures !HadSection(Template(key))
  {
    var t := TitleLine(key);
    var s := Template(key);
    assert |s| == |t| + 2 && s[..|t|] == t;
    assert s[1] == t[1] == ' ';
    forall k | 0 <= k < |t|
      ensures s[k] != '\n'
    {
      assert s[k] == t[k];
      if k >= 2 {
        assert t[k] == key[k - 2];
      }
    }
    forall i, j | 0 <= i <= j <= |s|
      ensures !SectionAt(s, i, j)
    {
      if i == 0 {
        if j >= 2 {
          assert s[i..j][1] == s[1];
        }
      } else if s[i - 1] == '\n' {
        assert i - 1 >= |t|;
      }
    }
  }

  /** Writing goals into the template puts the section above its title, and
      reading the result back gives those goals. */
  lemma TemplateRewrite(key: string, w: seq<Goal>, today: string)
    requires NoLineTerminator(key) && NoLineTerminator(today)
    requires AllClean(w)
    ensures Replaced(Template(key), w, today) == Join(RenderSection(w)) + "\n\n" + Template(key)
    ensures Extracted(Replaced(Template(key), w, today)) == w
  {
    TemplateHasNoHeader(key);
    TitledNoteRewrite(Template(key), w, today);
  }

  /** The same for any note without a header line whose first line is a
      title. */
  lemma TitledNoteRewrite(content: string, w: seq<Goal>, today: string)
    requires FirstHeader(Split(content)) < 0
    requires IsTitle(Split(content)[0])
    requires NoLineTerminator(today)
    requires AllClean(w)
    ensures Replaced(content, w, today) == Join(RenderSection(w)) + "\n\n" + content
    ensures Extracted(Replaced(content, w, today)) == w
  {
    TitleIsHeading(Split(content)[0]);
    assert FirstHeading(Split(content)) == 0;
    InsertKeepsNote(content, w, today);
    ExtractAfterReplace(content, w, today);
    assert Split(content)[..0] == [];
  }

  /** A new note gets the section above the template's title, and reading
      the note back gives the goals written. */
  lemma FreshNote(settings: Settings, s: Store, d: Day, goals: seq<Goal>, now: Day)
    requires NotePath(settings, d) !in s.files
    requires |goals| > 0 && AllClean(goals)
    ensures var w := Written(settings, s, d, goals);
      var note := WriteTo(settings, s, d, goals, now).files[NotePath(settings, d)];
      note == Join(RenderSection(w)) + "\n\n" + Template(WeekKey(d))
      && Extracted(note) == w
  {
    var w := Written(settings, s, d, goals);
    WeekKeyIsPlain(d);
    WeekKeyIsPlain(now);
    WriteFrame(settings, s, d, goals, now);
    TrimKeepsClean(settings.maxWeeklyGoals, goals);
    TemplateRewrite(WeekKey(d), w, WeekKey(now));
  }

  /* ---------------- the service ---------------- */

  class WeeklyGoalsService {
    const settings: Settings
    var files: map<string, string>
    var cache: map<string, CacheEntry>

    function State(): Store
      reads this
    {
      Store(files, cache)
    }

    constructor(settings: Settings, files: map<string, string>, cache: map<string, CacheEntry>)
      ensures this.settings == settings && State() == Store(files, cache)
    {
      this.settings := settings;
      this.files := files;
      this.cache := cache;
    }

    /** `readGoals`. */
    method ReadGoals(d: Day) returns (goals: seq<Goal>)
      modifies this
      ensures goals == ReadFrom(settings, old(State()), d).goals
      ensures State() == ReadFrom(settings, old(State()), d).store
    {
      ghost var spec := ReadFrom(settings, State(), d);
      var key := WeekKey(d);
      var ck := CacheKey(key);
      if ck in cache && cache[ck].Stored? {
        goals := cache[ck].goals;
        assert spec == ReadOutcome(goals, State());
        return;
      }
      var path := NotePath(settings, d);
      if path !in files || files[path] == "" {
        goals := [];
        assert spec == ReadOutcome(goals, State());
        return;
      }
      goals := ExtractGoalsSection(files[path]);
      cache := cache[ck := Stored(goals)];
      assert spec == ReadOutcome(goals, State());
    }

    /** `readPreviousWeekUnchecked`. */
    method ReadPreviousWeekUnchecked(d: Day) returns (goals: seq<Goal>)
      modifies this
      ensures goals == PrevUnchecked(settings, old(State()), d).goals
      ensures State() == PrevUnchecked(settings, old(State()), d).store
    {
      var prev := ReadGoals(d - 7);
      goals := Unchecked(prev);
    }

    /** `writeGoals`, run on day `now`. */
    method WriteGoals(d: Day, goals: seq<Goal>, now: Day)
      modifies this
      ensures State() == WriteTo(settings, old(State()), d, goals, now)
    {
      var key := WeekKey(d);
      var path := NotePath(settings, d);
      var content := if path in files then files[path] else Template(key);
      var hadSection := HadSection(content);
      var chosen := goals;
      if !hadSection && |goals| == 0 {
        var carry := ReadPreviousWeekUnchecked(d);
        if |carry| > 0 {
          chosen := Bounded(settings.maxWeeklyGoals, carry);
        }
      }
      var trimmed := Bounded(settings.maxWeeklyGoals, chosen);
      var newContent := ReplaceGoalsSection(content, trimmed, now);
      files := files[path := newContent];
      cache := cache[CacheKey(key) := Stored(trimmed)];
    }
  }
}
