/**
  The round trip of the page the program publishes: its opening and closing lines and its
  section of local reviews never disturb the parser, whatever reviewers have written.
 */
module ConformancePublished {
  import opened Options
  import opened Text
  import opened ConformanceReport
  import opened ConformanceRoundTrip
  import opened ConformanceDocument
  import opened ConformancePage
  import ManualReview

  // ---------- Escaped cells ----------

  /** Whatever the text, an escaped cell holds no bar and no line break. */
  lemma {:induction false} SafeCellPlain(value: string)
    ensures Plain(SafeCell(value))
  {
    var a := Replace(Replace(Replace(value, '&', "&amp;"), '<', "&lt;"), '>', "&gt;");
    var b := Replace(a, '|', "&#124;");
    ReplaceLacks(a, '|', "&#124;", '|');
    var c := Replace(b, '\n', " ");
    ReplaceLacks(b, '\n', " ", '|');
    ReplaceLacks(b, '\n', " ", '\n');
    ReplaceLacks(c, '\r', " ", '|');
    ReplaceLacks(c, '\r', " ", '\n');
    ReplaceLacks(c, '\r', " ", '\r');
  }

  lemma {:induction false} InstancePlain(instance: string)
    requires ManualReview.InstancePath(instance)
    ensures Plain(instance)
  {
    forall c | c in instance ensures ManualReview.InstanceChar(c) {
      var i :| 0 <= i < |instance| && instance[i] == c;
    }
  }

  lemma {:induction false} SuitePlain(link: string, page: string)
    requires Plain(link)
    ensures Plain(SuiteOf(link, page))
  {
    var suite := SuiteOf(link, page);
    forall c | c in suite ensures c in link {
      var i :| 0 <= i < |suite| && suite[i] == c;
      assert link[i] == c;
    }
  }

  lemma {:induction false} InstanceCellPlain(row: ReviewRow, page: string)
    requires ManualReview.InstancePath(row.instance) && Plain(row.link) && Plain(page)
    ensures Plain(InstanceCell(row, page))
  {
    InstancePlain(row.instance);
    SuitePlain(row.link, page);
  }

  /** A row of the review table is not a row of the summary. */
  lemma {:induction false} ReviewRowIgnored(st: Parser, row: ReviewRow, page: string)
    requires BetweenTables(st) && ManualReview.InstancePath(row.instance) && Plain(row.link) && Plain(page)
    ensures PassedOver(ParseLine, st, ReviewLine(row, page))
  {
    ReviewRowQuiet(row, page);
    QuietIgnored(st, ReviewLine(row, page));
  }

  lemma {:induction false} ReviewRowQuiet(row: ReviewRow, page: string)
    requires ManualReview.InstancePath(row.instance) && Plain(row.link) && Plain(page)
    ensures Quiet(ReviewLine(row, page)) && '\n' !in ReviewLine(row, page)
  {
    ReviewCellsPlain(row, page);
    QuietRow(ReviewCells(row, page));
  }

  lemma {:induction false} ReviewCellsPlain(row: ReviewRow, page: string)
    requires ManualReview.InstancePath(row.instance) && Plain(row.link) && Plain(page)
    ensures var cells := ReviewCells(row, page);
            forall i :: 0 <= i < |cells| ==> Plain(cells[i])
  {
    InstanceCellPlain(row, page);
    SafeCellPlain(row.alias + " / " + row.name);
    SafeCellPlain(row.suiteResult);
    SafeCellPlain(row.state);
    SafeCellPlain(row.reviewer);
    SafeCellPlain(row.note);
    SixPlain(InstanceCell(row, page), SafeCell(row.alias + " / " + row.name), SafeCell(row.suiteResult),
             SafeCell(row.state), SafeCell(row.reviewer), SafeCell(row.note));
  }

  lemma {:induction false} SixPlain(a: string, b: string, c: string, d: string, e: string, f: string)
    requires Plain(a) && Plain(b) && Plain(c) && Plain(d) && Plain(e) && Plain(f)
    ensures var cells := [a, b, c, d, e, f];
            forall i :: 0 <= i < |cells| ==> Plain(cells[i])
  {
  }

  // ---------- The section of local reviews ----------

  /** One physical line that the parser leaves alone. */
  ghost predicate PassedOver(step: Step, st: Parser, line: string) {
    '\n' !in line && step(st, line) == Success(st)
  }

  ghost predicate AllPassedOver(step: Step, st: Parser, lines: seq<string>) {
    forall i {:trigger lines[i]} :: 0 <= i < |lines| ==> PassedOver(step, st, lines[i])
  }

  lemma {:induction false} JoinNewline(lines: seq<string>)
    requires |lines| >= 1
    ensures Join(lines, "\n") + "\n" == Join(lines + [""], "\n")
    decreases |lines|
  {
    var more := lines + [""];
    if |lines| == 1 {
      assert more[1..] == [""];
    } else {
      JoinNewline(lines[1..]);
      assert more[1..] == lines[1..] + [""];
      assert Join(lines, "\n") + "\n" == lines[0] + "\n" + (Join(lines[1..], "\n") + "\n");
    }
  }

  /** Text made of lines that are passed over is passed over as one element. */
  lemma {:induction false} TextPassedOver(step: Step, st: Parser, lines: seq<string>)
    requires |lines| >= 1 && AllPassedOver(step, st, lines) && step(st, "") == Success(st)
    ensures Skips(step, st, Split(Join(lines, "\n") + "\n", '\n'))
  {
    JoinNewline(lines);
    var all := lines + [""];
    forall i | 0 <= i < |all| ensures Skips(step, st, Split(all[i], '\n')) {
      SkipPlain(step, st, all[i]);
    }
    FlatSkips(step, st, all);
    SplitJoin(all, '\n');
  }

  predicate FewBars(x: string) {
    TextLine(x) && Count(x, '|') <= 6
  }

  /** Fixed text that the parser takes for prose. */
  predicate GoodWords(w: Words) {
    w != [] && w[0] != "" && !IsWhite(w[0][0]) && w[0][0] != 'P' && forall i :: 0 <= i < |w| ==> Bare(w[i])
  }

  lemma {:induction false} GoodLine(w: Words)
    requires GoodWords(w)
    ensures Opening(Line(w)) && FewBars(Line(w))
  {
    JoinPlain(w, "", '|');
    JoinPlain(w, "", '\n');
    CountNone(Line(w), '|');
    assert w[0][0] in w[0] && Line(w)[0] == w[0][0];
  }

  /** What the proof needs of the section's fixed text. */
  predicate GoodReviewWords(w: ReviewWords) {
    && GoodWords(w.start) && GoodWords(w.title) && GoodWords(w.intro)
    && GoodWords(w.empty) && GoodWords(w.outro) && GoodWords(w.end)
    && |w.columns| == 6 && GoodWords(w.columns) && 1 <= |w.states| <= 7 && GoodWords(w.states)
    && Ruled(w.rule) && Plain(w.page)
  }

  lemma {:induction false} ProsePassedOver(st: Parser, x: string)
    requires BetweenTables(st) && FewBars(x)
    ensures PassedOver(ParseLine, st, x)
  {
    ProseIgnored(st, x);
  }

  lemma {:induction false} TallyLine(w: ReviewWords, rows: seq<ReviewRow>)
    requires GoodReviewWords(w)
    ensures FewBars(Join(Tallies(rows, w.states), " | "))
  {
    var ts := Tallies(rows, w.states);
    forall i | 0 <= i < |ts| ensures Bare(ts[i]) {
      NatTextPlain(CountState(rows, w.states[i]));
    }
    JoinCount(ts);
    JoinPlain(ts, " | ", '\n');
    assert ts[0][0] == w.states[0][0] && w.states[0][0] in w.states[0];
    JoinFirst(ts);
  }

  lemma {:induction false} JoinFirst(parts: seq<string>)
    requires |parts| >= 1 && parts[0] != ""
    ensures Join(parts, " | ") != "" && Join(parts, " | ")[0] == parts[0][0]
  {
  }

  lemma {:induction false} WordsPassedOver(st: Parser, w: Words)
    requires BetweenTables(st) && GoodWords(w)
    ensures PassedOver(ParseLine, st, Line(w))
  {
    GoodLine(w);
    ProsePassedOver(st, Line(w));
  }

  lemma {:induction false} ReviewTableIgnored(st: Parser, w: ReviewWords)
    requires BetweenTables(st) && GoodReviewWords(w)
    ensures PassedOver(ParseLine, st, TableRow(w.columns)) && PassedOver(ParseLine, st, RuleRow(w.rule))
  {
    QuietRow(w.columns);
    QuietIgnored(st, TableRow(w.columns));
    RuleIgnored(st, w.rule);
  }

  lemma {:induction false} ReviewHeadIgnored(st: Parser, w: ReviewWords, rows: seq<ReviewRow>)
    requires BetweenTables(st) && GoodReviewWords(w)
    ensures AllPassedOver(ParseLine, st, ReviewHead(w, rows))
  {
    WordsPassedOver(st, w.start);
    WordsPassedOver(st, w.title);
    WordsPassedOver(st, w.intro);
    TallyLine(w, rows);
    ProsePassedOver(st, Join(Tallies(rows, w.states), " | "));
    EmptyIgnored(st);
    ReviewTableIgnored(st, w);
    NineOver(ParseLine, st, Line(w.start), Line(w.title), Line(w.intro), Join(Tallies(rows, w.states), " | "),
             TableRow(w.columns), RuleRow(w.rule));
  }

  lemma {:induction false} NineOver(step: Step, st: Parser, a: string, b: string, c: string, d: string, e: string, f: string)
    requires PassedOver(step, st, a) && PassedOver(step, st, b) && PassedOver(step, st, c) && PassedOver(step, st, d)
    requires PassedOver(step, st, e) && PassedOver(step, st, f) && step(st, "") == Success(st)
    ensures AllPassedOver(step, st, [a, b, "", c, "", d, "", e, f])
  {
  }

  lemma {:induction false} ReviewFootIgnored(st: Parser, w: ReviewWords, rows: seq<ReviewRow>)
    requires BetweenTables(st) && GoodReviewWords(w)
    ensures AllPassedOver(ParseLine, st, ReviewFoot(w, rows))
  {
    var a, b, c := Line(w.empty), Line(w.outro), Line(w.end);
    assert PassedOver(ParseLine, st, a) by { WordsPassedOver(st, w.empty); }
    assert PassedOver(ParseLine, st, b) by { WordsPassedOver(st, w.outro); }
    assert PassedOver(ParseLine, st, c) by { WordsPassedOver(st, w.end); }
    assert ParseLine(st, "") == Success(st) by { EmptyIgnored(st); }
    FootOver(ParseLine, st, w, rows, a, b, c);
  }

  /** The foot of the section, with the lines of its words given. */
  lemma {:induction false} FootOver(step: Step, st: Parser, w: ReviewWords, rows: seq<ReviewRow>, a: string, b: string, c: string)
    requires PassedOver(step, st, a) && PassedOver(step, st, b) && PassedOver(step, st, c) && step(st, "") == Success(st)
    requires a == Line(w.empty) && b == Line(w.outro) && c == Line(w.end)
    ensures AllPassedOver(step, st, ReviewFoot(w, rows))
  {
    ThreeOver(step, st, b, c);
    if rows == [] {
      TwoOver(step, st, a);
      AppendPassedOver(step, st, ["", a], ["", b, c]);
      assert ReviewFoot(w, rows) == ["", a] + ["", b, c];
    } else {
      assert ReviewFoot(w, rows) == ["", b, c];
    }
  }

  lemma {:induction false} TwoOver(step: Step, st: Parser, a: string)
    requires PassedOver(step, st, a) && step(st, "") == Success(st)
    ensures AllPassedOver(step, st, ["", a])
  {
  }

  lemma {:induction false} ThreeOver(step: Step, st: Parser, a: string, b: string)
    requires PassedOver(step, st, a) && PassedOver(step, st, b) && step(st, "") == Success(st)
    ensures AllPassedOver(step, st, ["", a, b])
  {
  }

  predicate Linked(rows: seq<ReviewRow>) {
    Reviewed(rows) && forall i :: 0 <= i < |rows| ==> Plain(rows[i].link)
  }

  lemma {:induction false} ReviewRowsIgnored(st: Parser, rows: seq<ReviewRow>, page: string)
    requires BetweenTables(st) && Linked(rows) && Plain(page)
    ensures AllPassedOver(ParseLine, st, ReviewRows(rows, page))
    decreases |rows|
  {
    if |rows| > 0 {
      var before, last := rows[..|rows| - 1], rows[|rows| - 1];
      ReviewRowsIgnored(st, before, page);
      ReviewRowIgnored(st, last, page);
      OneMoreOver(ParseLine, st, ReviewRows(before, page), ReviewLine(last, page));
    }
  }

  lemma {:induction false} OneMoreOver(step: Step, st: Parser, lines: seq<string>, line: string)
    requires AllPassedOver(step, st, lines) && PassedOver(step, st, line)
    ensures AllPassedOver(step, st, lines + [line])
  {
  }

  lemma {:induction false} AppendPassedOver(step: Step, st: Parser, a: seq<string>, b: seq<string>)
    requires AllPassedOver(step, st, a) && AllPassedOver(step, st, b)
    ensures AllPassedOver(step, st, a + b)
  {
  }

  /** The section of local reviews is inert for every list of rows, whatever their text. */
  lemma {:induction false} ReviewsInert(st: Parser, w: ReviewWords, rows: seq<ReviewRow>)
    requires BetweenTables(st) && GoodReviewWords(w) && Linked(rows)
    ensures Skips(ParseLine, st, Split(ReviewsText(w, rows), '\n'))
  {
    ReviewHeadIgnored(st, w, rows);
    ReviewRowsIgnored(st, rows, w.page);
    ReviewFootIgnored(st, w, rows);
    AppendPassedOver(ParseLine, st, ReviewHead(w, rows), ReviewRows(rows, w.page));
    AppendPassedOver(ParseLine, st, ReviewHead(w, rows) + ReviewRows(rows, w.page), ReviewFoot(w, rows));
    EmptyIgnored(st);
    TextPassedOver(ParseLine, st, ReviewLines(w, rows));
  }

  // ---------- The lines around the tables ----------

  predicate GoodPageWords(w: PageWords) {
    && GoodWords(w.title) && Opening(w.badge.0) && Bare(w.badge.1) && Bare(w.badge.2)
    && Opening(w.run.0) && '\n' !in w.run.1 && '\n' !in w.run.2 && '\n' !in w.run.3 && '\n' !in w.run.4
    && GoodWords(w.note) && FewBars(w.rule) && GoodWords(w.stamp.0) && Bare(w.stamp.1)
  }

  predicate GoodRun(run: Run) {
    '\n' !in run.opBase && '\n' !in run.suiteUrl && Bare(run.time)
  }

  lemma {:induction false} PreambleHeadless(w: PageWords, badgeUrl: string, run: Run)
    requires GoodPageWords(w) && GoodRun(run) && '\n' !in badgeUrl
    ensures Headless(Preamble(w, badgeUrl, run))
  {
    var a, b, c, d := Line(w.title), BadgeLine(w, badgeUrl, run), RunLine(w, run), Line(w.note);
    GoodLine(w.title);
    GoodLine(w.note);
    TextSkipped(a);
    TextSkipped(b);
    TextSkipped(c);
    TextSkipped(d);
    SkipsTwo(ParseLine, START, a + "\n", b + "\n");
    SkipsTwo(ParseLine, START, c + "\n", d + "\n");
    SkipsAllAppend(ParseLine, START, [a + "\n", b + "\n"], [c + "\n", d + "\n"]);
    assert Preamble(w, badgeUrl, run) == [a + "\n", b + "\n"] + [c + "\n", d + "\n"];
  }

  lemma {:induction false} FooterSkipped(st: Parser, w: PageWords, run: Run)
    requires BetweenTables(st) && GoodPageWords(w) && GoodRun(run)
    ensures SkipsAll(ParseLine, st, Footer(w, run))
  {
    ProsePassedOver(st, w.rule);
    SkipPlain(ParseLine, st, w.rule);
    GoodLine(w.stamp.0);
    StampSkipped(st, Line(w.stamp.0), run.time, w.stamp.1);
    SkipsTwo(ParseLine, st, w.rule, StampLine(w, run) + "\n");
  }

  lemma {:induction false} StampSkipped(st: Parser, a: string, b: string, c: string)
    requires BetweenTables(st) && Opening(a) && Bare(b) && Bare(c)
    ensures Skips(ParseLine, st, Split(a + b + c + "\n", '\n'))
  {
    ProseSkipped(st, a + b, c);
  }

  lemma {:induction false} TailInert(w: Wording, p: PageWords, v: ReviewWords, run: Run, rows: Option<seq<ReviewRow>>,
                                     m: map<string, Counts>)
    requires |w.columns| == 8 && GoodPageWords(p) && GoodReviewWords(v) && GoodRun(run)
    requires rows.Some? ==> Linked(rows.value)
    ensures Inert(w, Tail(p, v, run, rows), m)
  {
    var st := Parser(Some(w.columns), m);
    FooterSkipped(st, p, run);
    if rows.Some? {
      ReviewsInert(st, v, rows.value);
      SkipsAllAppend(ParseLine, st, [ReviewsText(v, rows.value)], Footer(p, run));
    } else {
      assert Tail(p, v, run, rows) == Footer(p, run);
    }
  }

  lemma {:induction false} BadgeUrlPlain(b: (Words, string, string), passed: nat, total: nat)
    requires GoodWords(b.0) && '\n' !in b.1 && '\n' !in b.2
    ensures '\n' !in BadgeUrl(b, passed, total)
  {
    GoodLine(b.0);
    NatTextPlain(passed);
    NatTextPlain(total);
  }

  // ---------- The fixed text itself ----------

  /** Bare, by position: what is easy to see of a literal. */
  predicate Clear(x: string) {
    forall i :: 0 <= i < |x| ==> x[i] != '|' && x[i] != '\n'
  }

  /** Words whose pieces are all clear are bare, and good if they start well. */
  lemma {:induction false} ClearWords(w: Words)
    requires forall i :: 0 <= i < |w| ==> Clear(w[i])
    ensures forall i :: 0 <= i < |w| ==> Bare(w[i])
  {
  }

  lemma {:induction false} SectionTitles()
    ensures GoodWords(REVIEW_WORDS.start) && GoodWords(REVIEW_WORDS.title) && GoodWords(REVIEW_WORDS.end)
  {
    var a, b, c := REVIEW_WORDS.start, REVIEW_WORDS.title, REVIEW_WORDS.end;
    assert Clear(a[0]) && Clear(b[0]) && Clear(c[0]);
    ClearWords(a);
    ClearWords(b);
    ClearWords(c);
  }

  lemma {:induction false} EmptyWords()
    ensures GoodWords(NO_DECISIONS)
  {
    var w := NO_DECISIONS;
    assert Clear(w[0]) && Clear(w[1]) && Clear(w[2]);
    ClearWords(w);
  }

  lemma {:induction false} IntroWords()
    ensures GoodWords(INTRO)
  {
    assert Clear(INTRO[0]) && Clear(INTRO[1]) && Clear(INTRO[2]) && Clear(INTRO[3]);
    ClearWords(INTRO);
  }

  lemma {:induction false} OutroWords()
    ensures GoodWords(OUTRO)
  {
    assert Clear(OUTRO[0]) && Clear(OUTRO[1]) && Clear(OUTRO[2]) && Clear(OUTRO[3]);
    ClearWords(OUTRO);
  }

  lemma {:induction false} ColumnWords()
    ensures |COLUMNS| == 6 && GoodWords(COLUMNS)
  {
    var c := COLUMNS;
    assert Clear(c[0]) && Clear(c[1]) && Clear(c[2]) && Clear(c[3]) && Clear(c[4]) && Clear(c[5]);
    ClearWords(c);
  }

  lemma {:induction false} StateWords()
    ensures |STATES| == 4 && GoodWords(STATES)
  {
    var s := STATES;
    assert Clear(s[0]) && Clear(s[1]) && Clear(s[2]) && Clear(s[3]);
    ClearWords(s);
  }

  lemma {:induction false} RuleAndPage()
    ensures Ruled(REVIEW_RULE) && Plain(LOG_PAGE)
  {
  }

  lemma {:induction false} ActualReviewWords()
    ensures GoodReviewWords(REVIEW_WORDS)
  {
    SectionTitles();
    EmptyWords();
    IntroWords();
    OutroWords();
    ColumnWords();
    StateWords();
    RuleAndPage();
  }

  lemma {:induction false} ResultsNote()
    ensures GoodWords(NOTE_ON_RESULTS)
  {
    var n := NOTE_ON_RESULTS;
    assert Clear(n[0]) && Clear(n[1]) && Clear(n[2]);
    ClearWords(n);
  }

  lemma {:induction false} ReviewNote()
    ensures forall i :: 0 <= i < |NOTE_ON_REVIEW| ==> Bare(NOTE_ON_REVIEW[i])
  {
    var n := NOTE_ON_REVIEW;
    assert Clear(n[0]) && Clear(n[1]) && Clear(n[2]);
    ClearWords(n);
  }

  lemma {:induction false} GuideNote()
    ensures forall i :: 0 <= i < |NOTE_ON_GUIDE| ==> Bare(NOTE_ON_GUIDE[i])
  {
    var n := NOTE_ON_GUIDE;
    assert Clear(n[0]) && Clear(n[1]) && Clear(n[2]);
    ClearWords(n);
  }

  lemma {:induction false} ScopeNote()
    ensures forall i :: 0 <= i < |NOTE_ON_SCOPE| ==> Bare(NOTE_ON_SCOPE[i])
  {
    var n := NOTE_ON_SCOPE;
    assert Clear(n[0]) && Clear(n[1]) && Clear(n[2]) && Clear(n[3]);
    ClearWords(n);
  }

  lemma {:induction false} WordsAppend(a: Words, b: Words)
    requires GoodWords(a) && forall i :: 0 <= i < |b| ==> Bare(b[i])
    ensures GoodWords(a + b)
  {
  }

  lemma {:induction false} NoteWords()
    ensures GoodWords(PAGE_WORDS.note)
  {
    ResultsNote();
    ReviewNote();
    WordsAppend(NOTE_ON_RESULTS, NOTE_ON_REVIEW);
    GuideNote();
    WordsAppend(NOTE_ON_RESULTS + NOTE_ON_REVIEW, NOTE_ON_GUIDE);
    ScopeNote();
    WordsAppend(NOTE_ON_RESULTS + NOTE_ON_REVIEW + NOTE_ON_GUIDE, NOTE_ON_SCOPE);
  }

  lemma {:induction false} TitleWords()
    ensures GoodWords(PAGE_WORDS.title) && FewBars(PAGE_WORDS.rule)
  {
    assert Clear(PAGE_WORDS.title[0]) && Clear(PAGE_WORDS.title[1]);
    ClearWords(PAGE_WORDS.title);
    CountNone(PAGE_WORDS.rule, '|');
  }

  lemma {:induction false} StampWords()
    ensures GoodWords(PAGE_WORDS.stamp.0) && Bare(PAGE_WORDS.stamp.1)
  {
    var w := PAGE_WORDS.stamp.0;
    assert Clear(w[0]) && Clear(w[1]) && Clear(w[2]) && Clear(w[3]);
    ClearWords(w);
  }

  lemma {:induction false} BadgeWords()
    ensures Opening(PAGE_WORDS.badge.0) && Bare(PAGE_WORDS.badge.1) && Bare(PAGE_WORDS.badge.2)
  {
  }

  lemma {:induction false} RunWords()
    ensures var r := PAGE_WORDS.run;
            Opening(r.0) && '\n' !in r.1 && '\n' !in r.2 && '\n' !in r.3 && '\n' !in r.4
  {
  }

  lemma {:induction false} BadgeUrlWords()
    ensures GoodWords(BADGE.0) && '\n' !in BADGE.1 && '\n' !in BADGE.2
  {
    assert Clear(BADGE.0[0]) && Clear(BADGE.0[1]);
    ClearWords(BADGE.0);
  }

  lemma {:induction false} ActualPageWords()
    ensures GoodPageWords(PAGE_WORDS)
  {
    TitleWords();
    StampWords();
    BadgeWords();
    RunWords();
    NoteWords();
  }

  /**
    The published page yields exactly the counts of its plans: for all printable results,
    whatever the run, and whatever local reviews it carries.
   */
  lemma {:induction false} PublishedRoundTrip(rs: seq<PlanResult>, run: Run, rows: Option<seq<ReviewRow>>)
    requires forall i :: 0 <= i < |rs| ==> Printable(rs[i])
    requires GoodRun(run) && (rows.Some? ==> Linked(rows.value))
    ensures ParseLines(START, Split(Join(PageLines(rs, run, rows), "\n"), '\n')) ==
              Success(Parser(Some(WORDING.columns), Summary(rs)))
  {
    var url := BadgeUrl(BADGE, TotalPassed(rs), TotalTests(rs));
    ActualWording();
    EightColumns();
    ActualPageWords();
    ActualReviewWords();
    BadgeUrlWords();
    BadgeUrlPlain(BADGE, TotalPassed(rs), TotalTests(rs));
    PreambleHeadless(PAGE_WORDS, url, run);
    TailInert(WORDING, PAGE_WORDS, REVIEW_WORDS, run, rows, Summary(rs));
    ReportRoundTrip(WORDING, Preamble(PAGE_WORDS, url, run), rs, Tail(PAGE_WORDS, REVIEW_WORDS, run, rows));
  }

  /**
    main: writes the page and regenerates the badges from what it wrote. The counts that
    reach the badges are those of the results, and nothing is raised on the way.
   */
  method UpdateReport(rs: seq<PlanResult>, run: Run, rows: seq<ReviewRow>)
    returns (page: string, counts: map<string, Counts>)
    requires forall i :: 0 <= i < |rs| ==> Printable(rs[i])
    requires GoodRun(run) && Linked(rows)
    ensures page == Join(PageLines(rs, run, Some(rows)), "\n") && counts == Summary(rs)
  {
    var rendered := RenderMd(rs, run, Some(rows));
    page := rendered.value;
    PublishedRoundTrip(rs, run, Some(rows));
    var parsed := ParseConformanceMd(page);
    counts := parsed.value;
  }
}
