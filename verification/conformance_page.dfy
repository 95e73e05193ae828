/**
  The whole page: the lines render_md puts before the summary table and after the details,
  and the section of local reviews, with its escaping.
 */
module ConformancePage {
  import opened Options
  import opened Text
  import opened ConformanceReport
  import ManualReview

  /** A line of fixed text, in pieces. */
  type Words = seq<string>

  function Line(w: Words): string {
    Join(w, "")
  }

  // ---------- Local reviews ----------

  datatype ReviewRow = ReviewRow(alias: string, name: string, instance: string, suiteResult: string, state: string,
                                 reviewer: string, note: string, link: string)

  /** A table cell made safe: nothing in it can end the cell, the row or the comment around it. */
  function SafeCell(value: string): string {
    var a := Replace(Replace(Replace(value, '&', "&amp;"), '<', "&lt;"), '>', "&gt;");
    Replace(Replace(Replace(a, '|', "&#124;"), '\n', " "), '\r', " ")
  }

  const LOG_PAGE: string := "/log-detail.html?log="

  /** The suite's address: the link up to its log page, without trailing slashes. */
  function SuiteOf(link: string, page: string): string {
    var i := Index(link, page);
    TrimSlash(if i < 0 then link else link[..i])
  }

  function InstanceCell(row: ReviewRow, page: string): string {
    "[" + row.instance + "](" + SuiteOf(row.link, page) + page + row.instance + ")"
  }

  function ReviewCells(row: ReviewRow, page: string): seq<string> {
    [InstanceCell(row, page), SafeCell(row.alias + " / " + row.name), SafeCell(row.suiteResult), SafeCell(row.state),
     SafeCell(row.reviewer), SafeCell(row.note)]
  }

  function ReviewLine(row: ReviewRow, page: string): string {
    TableRow(ReviewCells(row, page))
  }

  function ReviewRows(rows: seq<ReviewRow>, page: string): seq<string> {
    if |rows| == 0 then [] else ReviewRows(rows[..|rows| - 1], page) + [ReviewLine(rows[|rows| - 1], page)]
  }

  function CountState(rows: seq<ReviewRow>, state: string): nat {
    if |rows| == 0 then 0 else CountState(rows[..|rows| - 1], state) + (if rows[|rows| - 1].state == state then 1 else 0)
  }

  ghost function States(rows: seq<ReviewRow>): seq<string> {
    seq(|rows|, i requires 0 <= i < |rows| => rows[i].state)
  }

  /** A tally is the number of rows in that state. */
  lemma {:induction false} TallyIsOccurrences(rows: seq<ReviewRow>, state: string)
    ensures CountState(rows, state) == multiset(States(rows))[state]
    decreases |rows|
  {
    if |rows| > 0 {
      var n := |rows| - 1;
      TallyIsOccurrences(rows[..n], state);
      assert States(rows) == States(rows[..n]) + [rows[n].state];
    }
  }

  /** The fixed text of the section. */
  datatype ReviewWords = ReviewWords(start: Words, title: Words, intro: Words, states: seq<string>, columns: seq<string>,
                                     rule: Rule, empty: Words, outro: Words, end: Words, page: string)

  const INTRO: Words :=
    ["Local operator decisions are ", "separate from official suite ", "verdicts. They do not increase ",
     "Passed counts or badges."]
  const STATES: seq<string> := ["approved", "rejected", "stale", "unverified"]
  const COLUMNS: seq<string> := ["Instance", "Plan / module", "Suite result", "Manual decision", "Reviewer", "Note"]
  const NO_DECISIONS: Words := ["No verified local decisions ", "for the selected current ", "instances."]
  const OUTRO: Words :=
    ["Changed evidence/verdicts ", "invalidate earlier approval ", "(`stale`); unavailable ", "evidence is `unverified`."]

  const REVIEW_RULE: Rule :=
    Rule(3, [RuleCell(3, false), RuleCell(3, false), RuleCell(3, false), RuleCell(3, false), RuleCell(3, false)])

  const REVIEW_WORDS: ReviewWords := ReviewWords(
    ["<!-- manual-review:start -->"],
    ["## Local manual verification"],
    INTRO,
    STATES,
    COLUMNS,
    REVIEW_RULE,
    NO_DECISIONS,
    OUTRO,
    ["<!-- manual-review:end -->"],
    LOG_PAGE)

  function TallyOf(rows: seq<ReviewRow>, state: string): string {
    state + ": **" + NatText(CountState(rows, state)) + "**"
  }

  function Tallies(rows: seq<ReviewRow>, states: seq<string>): seq<string> {
    seq(|states|, i requires 0 <= i < |states| => TallyOf(rows, states[i]))
  }

  function ReviewHead(w: ReviewWords, rows: seq<ReviewRow>): seq<string> {
    [Line(w.start), Line(w.title), "", Line(w.intro), "", Join(Tallies(rows, w.states), " | "), "",
     TableRow(w.columns), RuleRow(w.rule)]
  }

  function ReviewFoot(w: ReviewWords, rows: seq<ReviewRow>): seq<string> {
    (if rows == [] then ["", Line(w.empty)] else []) + ["", Line(w.outro), Line(w.end)]
  }

  function ReviewLines(w: ReviewWords, rows: seq<ReviewRow>): seq<string> {
    ReviewHead(w, rows) + ReviewRows(rows, w.page) + ReviewFoot(w, rows)
  }

  /** The section as one element of the page, ending in a newline. */
  function ReviewsText(w: ReviewWords, rows: seq<ReviewRow>): string {
    Join(ReviewLines(w, rows), "\n") + "\n"
  }

  predicate Reviewed(rows: seq<ReviewRow>) {
    forall i :: 0 <= i < |rows| ==> ManualReview.InstancePath(rows[i].instance)
  }

  /** render_reviews' loop: fails where an instance ID is not well formed. */
  method RenderRows(rows: seq<ReviewRow>, page: string) returns (ok: bool, lines: seq<string>)
    ensures ok == Reviewed(rows)
    ensures ok ==> lines == ReviewRows(rows, page)
  {
    lines := [];
    for i := 0 to |rows|
      invariant Reviewed(rows[..i])
      invariant lines == ReviewRows(rows[..i], page)
    {
      if !ManualReview.InstancePath(rows[i].instance) {
        NotReviewed(rows, i);
        return false, lines;
      }
      ReviewedNext(rows, i);
      lines := lines + [ReviewLine(rows[i], page)];
      RowsNext(rows, page, i);
    }
    assert rows[..|rows|] == rows;
    ok := true;
  }

  lemma {:induction false} NotReviewed(rows: seq<ReviewRow>, i: nat)
    requires i < |rows| && !ManualReview.InstancePath(rows[i].instance)
    ensures !Reviewed(rows)
  {
  }

  lemma {:induction false} ReviewedNext(rows: seq<ReviewRow>, i: nat)
    requires i < |rows| && Reviewed(rows[..i]) && ManualReview.InstancePath(rows[i].instance)
    ensures Reviewed(rows[..i + 1])
  {
    var next := rows[..i + 1];
    forall j | 0 <= j < |next| ensures ManualReview.InstancePath(next[j].instance) {
      assert j < i ==> next[j] == rows[..i][j];
    }
  }

  lemma {:induction false} RowsNext(rows: seq<ReviewRow>, page: string, i: nat)
    requires i < |rows|
    ensures ReviewRows(rows[..i + 1], page) == ReviewRows(rows[..i], page) + [ReviewLine(rows[i], page)]
  {
    assert rows[..i + 1][..i] == rows[..i];
  }

  /** render_reviews. */
  method RenderReviews(w: ReviewWords, rows: seq<ReviewRow>) returns (r: Option<string>)
    ensures r == if Reviewed(rows) then Some(ReviewsText(w, rows)) else None
  {
    var ok, body := RenderRows(rows, w.page);
    if !ok {
      return None;
    }
    var lines := ReviewHead(w, rows) + body;
    if |rows| == 0 {
      lines := lines + ["", Line(w.empty)];
    }
    lines := lines + ["", Line(w.outro), Line(w.end)];
    assert lines == ReviewLines(w, rows);
    r := Some(Join(lines, "\n") + "\n");
  }

  // ---------- The lines around the tables ----------

  datatype PageWords = PageWords(title: Words, badge: (string, string, string), run: (string, string, string, string, string),
                                 note: Words, rule: string, stamp: (Words, string))

  const NOTE_ON_RESULTS: Words :=
    ["_Results are derived from ", "suite records. REVIEW requires ", "case-specific human evidence "]
  const NOTE_ON_REVIEW: Words :=
    ["and validation; it is not ", "automatically passed. Skipped ", "and incomplete cases are not "]
  const NOTE_ON_GUIDE: Words := ["passes. See the reproduction ", "guide at `conformance/", "REPRODUCIBILITY.md` for "]
  const NOTE_ON_SCOPE: Words :=
    ["version scope, reporting ", "limitations and tooling ", "availability. Suite results ", "are not certification._"]

  const PAGE_WORDS: PageWords := PageWords(
    ["# Clavex \U{2014} OIDF ", "Conformance Results"],
    ("[![OIDC Conformance](", ")](", ")"),
    ("> **Last run:** ", "  |  **OP:** `", "`  |  **Suite:** [", "](", ")"),
    NOTE_ON_RESULTS + NOTE_ON_REVIEW + NOTE_ON_GUIDE + NOTE_ON_SCOPE,
    "---",
    (["_Auto-generated by ", "`conformance/", "update-conformance-md.py` ", "at "], "._"))

  /** What a report is about, besides its results. */
  datatype Run = Run(opBase: string, suiteUrl: string, time: string)

  function TotalPassed(rs: seq<PlanResult>): nat {
    if |rs| == 0 then 0 else TotalPassed(rs[..|rs| - 1]) + CountResult(rs[|rs| - 1].modules, "PASSED")
  }

  function TotalTests(rs: seq<PlanResult>): nat {
    if |rs| == 0 then 0 else TotalTests(rs[..|rs| - 1]) + |rs[|rs| - 1].modules|
  }

  function Colour(passed: nat, total: nat): string {
    if total == 0 then "red"
    else if 100 * passed >= 98 * total then "brightgreen"
    else if 100 * passed >= 90 * total then "green"
    else if 100 * passed >= 75 * total then "yellow"
    else "red"
  }

  const BADGE: (Words, string, string) :=
    (["https://img.shields.io/", "badge/OIDC%20Conformance-"], "%2F", "%20tests%20passing-")

  /** build_badge_url, over exact fractions. */
  function BadgeUrl(b: (Words, string, string), passed: nat, total: nat): string {
    Line(b.0) + NatText(passed) + b.1 + NatText(total) + b.2 + Colour(passed, total)
  }

  function BadgeLine(w: PageWords, badgeUrl: string, run: Run): string {
    w.badge.0 + badgeUrl + w.badge.1 + run.suiteUrl + w.badge.2
  }

  function RunLine(w: PageWords, run: Run): string {
    w.run.0 + run.time + w.run.1 + run.opBase + w.run.2 + run.suiteUrl + w.run.3 + run.suiteUrl + w.run.4
  }

  function Preamble(w: PageWords, badgeUrl: string, run: Run): seq<string> {
    [Line(w.title) + "\n", BadgeLine(w, badgeUrl, run) + "\n", RunLine(w, run) + "\n", Line(w.note) + "\n"]
  }

  function Footer(w: PageWords, run: Run): seq<string> {
    [w.rule, StampLine(w, run) + "\n"]
  }

  function StampLine(w: PageWords, run: Run): string {
    Line(w.stamp.0) + run.time + w.stamp.1
  }

  /** What follows the details; there is no review section where no reviews were collected. */
  function Tail(w: PageWords, v: ReviewWords, run: Run, rows: Option<seq<ReviewRow>>): seq<string> {
    (if rows.Some? then [ReviewsText(v, rows.value)] else []) + Footer(w, run)
  }

  function PageLines(rs: seq<PlanResult>, run: Run, rows: Option<seq<ReviewRow>>): seq<string> {
    var url := BadgeUrl(BADGE, TotalPassed(rs), TotalTests(rs));
    DocumentLines(WORDING, Preamble(PAGE_WORDS, url, run), rs, Tail(PAGE_WORDS, REVIEW_WORDS, run, rows))
  }

  /** The counts render_md begins with. */
  method Totals(rs: seq<PlanResult>) returns (passed: nat, total: nat)
    ensures passed == TotalPassed(rs) && total == TotalTests(rs)
  {
    passed, total := 0, 0;
    for i := 0 to |rs|
      invariant passed == TotalPassed(rs[..i]) && total == TotalTests(rs[..i])
    {
      assert rs[..i + 1][..i] == rs[..i];
      passed, total := passed + CountResult(rs[i].modules, "PASSED"), total + |rs[i].modules|;
    }
    assert rs[..|rs|] == rs;
  }

  /** render_md: the page's text, or None where the review section raises. */
  method RenderMd(rs: seq<PlanResult>, run: Run, rows: Option<seq<ReviewRow>>) returns (r: Option<string>)
    ensures r == if rows.Some? && !Reviewed(rows.value) then None else Some(Join(PageLines(rs, run, rows), "\n"))
  {
    var w, v, p, b := WORDING, REVIEW_WORDS, PAGE_WORDS, BADGE;
    var passed, total := Totals(rs);
    var tail := [];
    if rows.Some? {
      var section := RenderReviews(v, rows.value);
      if section.None? {
        return None;
      }
      tail := [section.value];
    }
    tail := tail + Footer(p, run);
    var lines := RenderLines(w, Preamble(p, BadgeUrl(b, passed, total), run), rs, tail);
    r := Some(Join(lines, "\n"));
  }
}
