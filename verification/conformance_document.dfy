/** The round trip of the whole report: every line of the rendered document, parsed in order. */
module ConformanceDocument {
  import opened Options
  import opened Text
  import opened ConformanceReport
  import opened ConformanceRoundTrip

  // ---------- Passing over lines ----------

  lemma {:induction false} FoldAppend(step: Step, st: Parser, a: seq<string>, b: seq<string>)
    ensures Fold(step, st, a + b) ==
              match Fold(step, st, a) case Raised => Raised case Success(mid) => Fold(step, mid, b)
    decreases |a|
  {
    if |a| == 0 {
      assert a + b == b;
    } else {
      assert (a + b)[0] == a[0] && (a + b)[1..] == a[1..] + b;
      match step(st, a[0]) {
        case Raised =>
        case Success(next) => FoldAppend(step, next, a[1..], b);
      }
    }
  }

  ghost predicate Skips(step: Step, st: Parser, lines: seq<string>) {
    forall i :: 0 <= i < |lines| ==> step(st, lines[i]) == Success(st)
  }

  lemma {:induction false} FoldSkips(step: Step, st: Parser, lines: seq<string>)
    requires Skips(step, st, lines)
    ensures Fold(step, st, lines) == Success(st)
    decreases |lines|
  {
    if |lines| > 0 { FoldSkips(step, st, lines[1..]); }
  }

  /** The parser passes over every physical line of every element. */
  ghost predicate SkipsAll(step: Step, st: Parser, ls: seq<string>) {
    forall i :: 0 <= i < |ls| ==> Skips(step, st, Split(ls[i], '\n'))
  }

  lemma {:induction false} FlatSkips(step: Step, st: Parser, ls: seq<string>)
    requires SkipsAll(step, st, ls)
    ensures Skips(step, st, Flat(ls, '\n'))
    decreases |ls|
  {
    if |ls| > 0 { FlatSkips(step, st, ls[1..]); }
  }

  lemma {:induction false} SkipsAllAppend(step: Step, st: Parser, a: seq<string>, b: seq<string>)
    requires SkipsAll(step, st, a) && SkipsAll(step, st, b)
    ensures SkipsAll(step, st, a + b)
  {
  }

  lemma {:induction false} SkipPlain(step: Step, st: Parser, x: string)
    requires '\n' !in x && step(st, x) == Success(st)
    ensures Skips(step, st, Split(x, '\n'))
  {
    SplitWhole(x, '\n');
  }

  lemma {:induction false} SkipNewline(step: Step, st: Parser, x: string)
    requires '\n' !in x && step(st, x) == Success(st) && step(st, "") == Success(st)
    ensures Skips(step, st, Split(x + "\n", '\n'))
  {
    assert x + "\n" == x + ['\n'] + "";
    SplitAppend(x, '\n', "");
    SplitWhole(x, '\n');
    SplitWhole("", '\n');
  }

  // ---------- The detail sections ----------

  lemma {:induction false} ProseIgnored(st: Parser, line: string)
    requires BetweenTables(st)
    requires line != "" && !IsWhite(line[0]) && line[0] != '|' && line[0] != 'P' && Count(line, '|') <= 6
    ensures ParseLine(st, line) == Success(st)
  {
    QuietProse(line);
    QuietIgnored(st, line);
  }

  lemma {:induction false} EmptyIgnored(st: Parser)
    requires BetweenTables(st)
    ensures ParseLine(st, "") == Success(st)
  {
    QuietEmpty();
    QuietIgnored(st, "");
  }

  lemma {:induction false} NatTextPlain(n: nat)
    ensures '|' !in NatText(n) && '\n' !in NatText(n)
  {
    var s := NatText(n);
    forall c | c in s ensures IsDigit(c) {
      var i :| 0 <= i < |s| && s[i] == c;
    }
  }

  /** A fixed opening that makes a line prose for the parser. */
  predicate Opening(x: string) {
    x != "" && !IsWhite(x[0]) && x[0] != '|' && x[0] != 'P' && Bare(x)
  }

  predicate Bare(x: string) {
    '|' !in x && '\n' !in x
  }

  /** What the proof needs of the document's fixed text. */
  predicate GoodWording(w: Wording) {
    && Opening(w.summary) && SummaryColumns(w.columns) && Ruled(w.rule)
    && Opening(w.details) && Opening(w.anchor.0) && Bare(w.anchor.1) && Opening(w.heading)
    && Opening(w.alias.0) && Bare(w.alias.1) && Bare(w.alias.2) && Bare(w.alias.3)
    && ModuleColumns(w.moduleColumns) && Ruled(w.moduleRule)
  }

  predicate ModuleColumns(c: seq<string>) {
    |c| == 3 && (forall i :: 0 <= i < 3 ==> Bare(c[i])) && c[0] != "" && !IsWhite(c[0][0]) && c[0][0] != 'P'
  }

  /** Prose with a given opening and a bare remainder, followed by a blank line. */
  lemma {:induction false} ProseSkipped(st: Parser, opening: string, rest: string)
    requires BetweenTables(st) && Opening(opening) && Bare(rest)
    ensures Skips(ParseLine, st, Split(opening + rest + "\n", '\n'))
  {
    CountNone(opening + rest, '|');
    LineSkipped(st, opening + rest);
  }

  lemma {:induction false} SlugBare(alias: string)
    ensures Bare(Slug(alias))
  {
    var s := Slug(alias);
    forall c | c in s ensures SlugChar(c) {
      var i :| 0 <= i < |s| && s[i] == c;
    }
  }

  lemma {:induction false} AnchorIgnored(st: Parser, w: Wording, p: PlanResult)
    requires BetweenTables(st) && GoodWording(w)
    ensures Skips(ParseLine, st, Split(AnchorText(w, p) + "\n", '\n'))
  {
    SlugBare(p.alias);
    ProseSkipped(st, w.anchor.0, Slug(p.alias) + w.anchor.1);
    assert w.anchor.0 + (Slug(p.alias) + w.anchor.1) == AnchorText(w, p);
  }

  lemma {:induction false} AliasIgnored(st: Parser, w: Wording, p: PlanResult)
    requires BetweenTables(st) && GoodWording(w) && Plain(p.alias)
    ensures Skips(ParseLine, st, Split(AliasText(w, p) + "\n", '\n'))
  {
    var passed, total := NatText(CountResult(p.modules, "PASSED")), NatText(|p.modules|);
    NatTextPlain(CountResult(p.modules, "PASSED"));
    NatTextPlain(|p.modules|);
    BarredSkipped(st, w.alias.0 + p.alias + w.alias.1, w.alias.2 + passed + "/" + total + w.alias.3);
  }

  lemma {:induction false} BarredSkipped(st: Parser, left: string, right: string)
    requires BetweenTables(st) && Opening(left) && Bare(right)
    ensures Skips(ParseLine, st, Split(left + "|" + right + "\n", '\n'))
  {
    OneBar(left, right);
    LineSkipped(st, left + "|" + right);
  }

  lemma {:induction false} LineSkipped(st: Parser, x: string)
    requires BetweenTables(st) && x != "" && !IsWhite(x[0]) && x[0] != '|' && x[0] != 'P'
    requires Count(x, '|') <= 6 && '\n' !in x
    ensures Skips(ParseLine, st, Split(x + "\n", '\n'))
  {
    ProseIgnored(st, x);
    EmptyIgnored(st);
    SkipNewline(ParseLine, st, x);
  }

  lemma {:induction false} OneBar(left: string, right: string)
    requires '|' !in left && '|' !in right
    ensures Count(left + "|" + right, '|') == 1
  {
    CountAppend(left + "|", right, '|');
    CountAppend(left, "|", '|');
    CountNone(left, '|');
    CountNone(right, '|');
    assert "|"[1..] == "";
  }

  lemma {:induction false} ModuleHeadIgnored(st: Parser, w: Wording)
    requires BetweenTables(st) && GoodWording(w)
    ensures Skips(ParseLine, st, Split(TableRow(w.moduleColumns), '\n'))
    ensures Skips(ParseLine, st, Split(RuleRow(w.moduleRule), '\n'))
  {
    QuietRow(w.moduleColumns);
    QuietIgnored(st, TableRow(w.moduleColumns));
    SkipPlain(ParseLine, st, TableRow(w.moduleColumns));
    RuleIgnored(st, w.moduleRule);
    SkipPlain(ParseLine, st, RuleRow(w.moduleRule));
  }

  lemma {:induction false} ModuleIgnored(st: Parser, m: Module)
    requires BetweenTables(st) && Plain(m.name) && Plain(m.result) && Plain(m.link)
    ensures Skips(ParseLine, st, Split(ModuleLine(m), '\n'))
  {
    var cells := ModuleCells(m);
    assert cells[0][0] == '`';
    QuietRow(cells);
    QuietIgnored(st, ModuleLine(m));
    SkipPlain(ParseLine, st, ModuleLine(m));
  }

  lemma {:induction false} DetailHeadIgnored(st: Parser, w: Wording, p: PlanResult)
    requires BetweenTables(st) && GoodWording(w) && Printable(p)
    ensures SkipsAll(ParseLine, st, DetailHead(w, p))
  {
    AnchorIgnored(st, w, p);
    ProseSkipped(st, w.heading, p.title);
    AliasIgnored(st, w, p);
    ModuleHeadIgnored(st, w);
    SkipsFive(ParseLine, st, AnchorText(w, p) + "\n", HeadingText(w, p) + "\n", AliasText(w, p) + "\n",
              TableRow(w.moduleColumns), RuleRow(w.moduleRule));
  }

  lemma {:induction false} SkipsFive(step: Step, st: Parser, a: string, b: string, c: string, d: string, e: string)
    requires Skips(step, st, Split(a, '\n')) && Skips(step, st, Split(b, '\n')) && Skips(step, st, Split(c, '\n'))
    requires Skips(step, st, Split(d, '\n')) && Skips(step, st, Split(e, '\n'))
    ensures SkipsAll(step, st, [a, b, c, d, e])
  {
  }

  lemma {:induction false} DetailIgnored(st: Parser, w: Wording, p: PlanResult)
    requires BetweenTables(st) && GoodWording(w) && Printable(p)
    ensures SkipsAll(ParseLine, st, DetailLines(w, p))
  {
    var head := DetailHead(w, p);
    DetailHeadIgnored(st, w, p);
    forall i | 0 <= i < |p.modules| ensures Skips(ParseLine, st, Split(ModuleLines(p.modules)[i], '\n')) {
      ModuleIgnored(st, p.modules[i]);
    }
    EmptyIgnored(st);
    SkipPlain(ParseLine, st, "");
    SkipsAllAppend(ParseLine, st, head, ModuleLines(p.modules));
    SkipsAllAppend(ParseLine, st, head + ModuleLines(p.modules), [""]);
  }

  lemma {:induction false} DetailsIgnored(st: Parser, w: Wording, rs: seq<PlanResult>)
    requires BetweenTables(st) && GoodWording(w) && forall i :: 0 <= i < |rs| ==> Printable(rs[i])
    ensures SkipsAll(ParseLine, st, AllDetails(w, rs))
    decreases |rs|
  {
    if |rs| > 0 {
      DetailsIgnored(st, w, rs[..|rs| - 1]);
      DetailIgnored(st, w, rs[|rs| - 1]);
      SkipsAllAppend(ParseLine, st, AllDetails(w, rs[..|rs| - 1]), DetailLines(w, rs[|rs| - 1]));
    }
  }

  // ---------- The summary table ----------

  /** What the summary table says, later rows for a slug replacing earlier ones. */
  function Summary(rs: seq<PlanResult>): map<string, Counts> {
    if |rs| == 0 then map[] else Record(Summary(rs[..|rs| - 1]), rs[|rs| - 1])
  }

  lemma {:induction false} RowStep(columns: seq<string>, rs: seq<PlanResult>, i: nat)
    requires SummaryColumns(columns) && i < |rs| && Printable(rs[i])
    ensures ParseLine(Parser(Some(columns), Summary(rs[..i])), SummaryRows(rs)[i]) ==
              Success(Parser(Some(columns), Summary(rs[..i + 1])))
  {
    assert rs[..i + 1][..i] == rs[..i];
    RowParses(columns, Summary(rs[..i]), rs[i]);
  }

  lemma {:induction false} RowsParse(columns: seq<string>, rs: seq<PlanResult>)
    requires SummaryColumns(columns) && forall i :: 0 <= i < |rs| ==> Printable(rs[i])
    ensures Fold(ParseLine, Parser(Some(columns), map[]), SummaryRows(rs)) == Success(Parser(Some(columns), Summary(rs)))
  {
    forall i | 0 <= i < |rs|
      ensures ParseLine(Parser(Some(columns), Summary(rs[..i])), SummaryRows(rs)[i]) ==
                Success(Parser(Some(columns), Summary(rs[..i + 1])))
    {
      RowStep(columns, rs, i);
    }
    RowsFold(ParseLine, columns, rs, SummaryRows(rs));
  }

  lemma {:induction false} RowsFold(step: Step, columns: seq<string>, rs: seq<PlanResult>, rows: seq<string>)
    requires |rows| == |rs|
    requires forall i :: 0 <= i < |rs| ==>
               step(Parser(Some(columns), Summary(rs[..i])), rows[i]) == Success(Parser(Some(columns), Summary(rs[..i + 1])))
    ensures Fold(step, Parser(Some(columns), map[]), rows) == Success(Parser(Some(columns), Summary(rs)))
  {
    var states := seq(|rs| + 1, i requires 0 <= i <= |rs| => Parser(Some(columns), Summary(rs[..i])));
    FoldStates(step, states, rows);
    assert rs[..|rs|] == rs;
  }

  lemma {:induction false} FoldStates(step: Step, states: seq<Parser>, lines: seq<string>)
    requires |states| == |lines| + 1
    requires forall i :: 0 <= i < |lines| ==> step(states[i], lines[i]) == Success(states[i + 1])
    ensures Fold(step, states[0], lines) == Success(states[|lines|])
    decreases |lines|
  {
    if |lines| > 0 { FoldStates(step, states[1..], lines[1..]); }
  }

  lemma {:induction false} FoldExtend(step: Step, st: Parser, lines: seq<string>, mid: Parser, line: string, end: Parser)
    requires Fold(step, st, lines) == Success(mid) && step(mid, line) == Success(end)
    ensures Fold(step, st, lines + [line]) == Success(end)
  {
    FoldAppend(step, st, lines, [line]);
    FoldOne(step, mid, line);
  }

  lemma {:induction false} FoldOne(step: Step, st: Parser, line: string)
    ensures Fold(step, st, [line]) == step(st, line)
  {
    assert [line][1..] == [];
  }

  lemma {:induction false} SummaryRowsPlain(rs: seq<PlanResult>)
    requires forall i :: 0 <= i < |rs| ==> Printable(rs[i])
    ensures forall i :: 0 <= i < |rs| ==> '\n' !in SummaryRows(rs)[i]
  {
    forall i | 0 <= i < |rs| ensures '\n' !in SummaryRows(rs)[i] {
      RowPlain(rs[i]);
    }
  }

  lemma {:induction false} RateBare(p: nat, t: nat)
    ensures '\n' !in "**" + RateText(p, t) + "**"
  {
    if t > 0 { NatTextPlain(100 * p / t); }
  }

  lemma {:induction false} LabelBare(title: string, alias: string)
    requires Plain(title)
    ensures '\n' !in LabelCell(title, Slug(alias))
  {
    SlugBare(alias);
  }

  lemma {:induction false} RowPlain(p: PlanResult)
    requires Printable(p)
    ensures '\n' !in TableRow(SummaryCells(p))
  {
    var cells, ms := SummaryCells(p), p.modules;
    CountsFit(ms);
    var passed, review, failed, skipped :=
      CountResult(ms, "PASSED"), CountResult(ms, "REVIEW"), CountResult(ms, "FAILED"), CountResult(ms, "SKIPPED");
    NatTextPlain(|ms|);
    NatTextPlain(passed);
    NatTextPlain(review);
    NatTextPlain(failed);
    NatTextPlain(skipped);
    NatTextPlain(|ms| - passed - review - failed - skipped);
    RateBare(passed, |ms|);
    LabelBare(p.title, p.alias);
    JoinPlain(cells, " | ", '\n');
  }

  // ---------- The document ----------

  /** The parser passes over the text as long as it has seen no header. */
  ghost predicate Headless(ls: seq<string>) {
    SkipsAll(ParseLine, START, ls)
  }

  /** The parser passes over the text once it has read the summary table. */
  ghost predicate Inert(w: Wording, ls: seq<string>, m: map<string, Counts>) {
    SkipsAll(ParseLine, Parser(Some(w.columns), m), ls)
  }

  lemma {:induction false} HeadParses(w: Wording)
    requires GoodWording(w)
    ensures Fold(ParseLine, START, Flat(TableHead(w), '\n')) == Success(Parser(Some(w.columns), map[]))
  {
    var st := Parser(Some(w.columns), map[]);
    HeadlineSkipped(START, w.summary);
    JoinPlain(w.columns, " | ", '\n');
    HeaderParses(w.columns, START);
    RuleIgnored(st, w.rule);
    HeadFold(ParseLine, st, w.summary + "\n", TableRow(w.columns), RuleRow(w.rule));
  }

  lemma {:induction false} HeadFold(step: Step, st: Parser, a: string, b: string, c: string)
    requires Skips(step, START, Split(a, '\n'))
    requires '\n' !in b && step(START, b) == Success(st)
    requires '\n' !in c && step(st, c) == Success(st)
    ensures Fold(step, START, Flat([a, b, c], '\n')) == Success(st)
  {
    FlatSkips(step, START, [a]);
    FoldSkips(step, START, Flat([a], '\n'));
    FlatPlain([b, c], '\n');
    FlatAppend([a], [b, c], '\n');
    assert [a] + [b, c] == [a, b, c];
    FoldExtend(step, START, Flat([a], '\n'), START, b, st);
    FoldExtend(step, START, Flat([a], '\n') + [b], st, c, st);
    assert Flat([a], '\n') + [b] + [c] == Flat([a], '\n') + [b, c];
  }

  lemma {:induction false} MiddleIgnored(st: Parser, w: Wording)
    requires BetweenTables(st) && GoodWording(w)
    ensures SkipsAll(ParseLine, st, ["", w.details + "\n"])
  {
    EmptyIgnored(st);
    SkipPlain(ParseLine, st, "");
    HeadlineSkipped(st, w.details);
    SkipsTwo(ParseLine, st, "", w.details + "\n");
  }

  lemma {:induction false} HeadlineSkipped(st: Parser, x: string)
    requires BetweenTables(st) && Opening(x)
    ensures Skips(ParseLine, st, Split(x + "\n", '\n'))
  {
    CountNone(x, '|');
    LineSkipped(st, x);
  }

  lemma {:induction false} SkipsTwo(step: Step, st: Parser, a: string, b: string)
    requires Skips(step, st, Split(a, '\n')) && Skips(step, st, Split(b, '\n'))
    ensures SkipsAll(step, st, [a, b])
  {
  }

  lemma {:induction false} RestIgnored(w: Wording, rs: seq<PlanResult>, tail: seq<string>)
    requires GoodWording(w) && forall i :: 0 <= i < |rs| ==> Printable(rs[i])
    requires Inert(w, tail, Summary(rs))
    ensures var st := Parser(Some(w.columns), Summary(rs));
            Fold(ParseLine, st, Flat(["", w.details + "\n"] + AllDetails(w, rs) + tail, '\n')) == Success(st)
  {
    var st := Parser(Some(w.columns), Summary(rs));
    var middle, details := ["", w.details + "\n"], AllDetails(w, rs);
    MiddleIgnored(st, w);
    DetailsIgnored(st, w, rs);
    SkipsAllAppend(ParseLine, st, middle, details);
    SkipsAllAppend(ParseLine, st, middle + details, tail);
    FlatSkips(ParseLine, st, middle + details + tail);
    FoldSkips(ParseLine, st, Flat(middle + details + tail, '\n'));
  }

  /**
    Printing and parsing undo each other: for all printable results, whatever quiet text
    surrounds them, parsing the rendered document does not raise and recovers exactly the
    counts of each plan with a badged slug.
   */
  lemma {:induction false} ReportRoundTrip(w: Wording, preamble: seq<string>, rs: seq<PlanResult>, tail: seq<string>)
    requires GoodWording(w) && forall i :: 0 <= i < |rs| ==> Printable(rs[i])
    requires Headless(preamble) && Inert(w, tail, Summary(rs))
    ensures ParseLines(START, Split(Join(DocumentLines(w, preamble, rs, tail), "\n"), '\n')) ==
              Success(Parser(Some(w.columns), Summary(rs)))
  {
    SummaryRowsPlain(rs);
    FlatPlain(SummaryRows(rs), '\n');
    RowsParse(w.columns, rs);
    FlatSkips(ParseLine, START, preamble);
    FoldSkips(ParseLine, START, Flat(preamble, '\n'));
    HeadParses(w);
    RestIgnored(w, rs, tail);
    FourParts(ParseLine, preamble, TableHead(w), SummaryRows(rs), ["", w.details + "\n"] + AllDetails(w, rs) + tail,
              Parser(Some(w.columns), map[]), Parser(Some(w.columns), Summary(rs)));
    SplitJoin(DocumentLines(w, preamble, rs, tail), '\n');
  }

  lemma {:induction false} FourParts(step: Step, a: seq<string>, b: seq<string>, c: seq<string>, d: seq<string>, mid: Parser, end: Parser)
    requires Fold(step, START, Flat(a, '\n')) == Success(START)
    requires Fold(step, START, Flat(b, '\n')) == Success(mid)
    requires Fold(step, mid, Flat(c, '\n')) == Success(end)
    requires Fold(step, end, Flat(d, '\n')) == Success(end)
    ensures Fold(step, START, Flat(a + b + c + d, '\n')) == Success(end)
  {
    FlatAppend(a, b, '\n');
    FlatAppend(a + b, c, '\n');
    FlatAppend(a + b + c, d, '\n');
    FoldAppend(step, START, Flat(a, '\n'), Flat(b, '\n'));
    FoldAppend(step, START, Flat(a + b, '\n'), Flat(c, '\n'));
    FoldAppend(step, START, Flat(a + b + c, '\n'), Flat(d, '\n'));
  }

  // ---------- The actual wording ----------

  lemma {:induction false} TestsColumn()
    ensures FindColumn(WORDING.columns, "Tests") == Some(1)
  {
    LowerSame("Tests", "tests");
    TooShort(Lower("Plan"), "tests");
    FindNext(WORDING.columns, "Tests");
    ContainsAt(Lower(WORDING.columns[1]), "tests", 0);
    assert WORDING.columns[1..][0] == WORDING.columns[1];
  }

  lemma {:induction false} PassedColumn()
    ensures FindColumn(WORDING.columns, "Passed") == Some(2)
  {
    LowerSame("Passed", "passed");
    TooShort(Lower("Plan"), "passed");
    FindNext(WORDING.columns, "Passed");
    TooShort(Lower("Tests"), "passed");
    assert WORDING.columns[1..][0] == WORDING.columns[1] && WORDING.columns[1..][1..][0] == WORDING.columns[2];
    FindNext(WORDING.columns[1..], "Passed");
    PassedTitle();
  }

  lemma {:induction false} PassedTitle()
    ensures Contains(Lower(WORDING.columns[2]), "passed")
  {
    var third := Lower(WORDING.columns[2]);
    assert third[2..] == "passed";
    ContainsAt(third, "passed", 2);
  }

  /** A title of eight characters whose first two are an emoji and a space has no "skipped". */
  lemma {:induction false} NotSkipped(s: string)
    requires |s| == 8 && s[0] != 's' && s[1] != 's'
    ensures !Contains(s, "skipped")
  {
    forall i | 0 <= i <= |s| ensures !("skipped" <= s[i..]) {
      assert i < |s| ==> s[i..][0] == s[i];
    }
  }

  lemma {:induction false} SkippedColumn()
    ensures FindColumn(WORDING.columns, "Skipped") == Some(5)
  {
    var name := "Skipped";
    LowerSame(name, "skipped");
    var c1, c2, c3, c4, c5 := WORDING.columns[1..], WORDING.columns[2..], WORDING.columns[3..], WORDING.columns[4..], WORDING.columns[5..];
    assert c1[1..] == c2 && c2[1..] == c3 && c3[1..] == c4 && c4[1..] == c5;
    TooShort(Lower("Plan"), "skipped");
    TooShort(Lower("Tests"), "skipped");
    NotSkipped(Lower(WORDING.columns[2]));
    NotSkipped(Lower(WORDING.columns[3]));
    NotSkipped(Lower(WORDING.columns[4]));
    LowerSame(WORDING.columns[5], "skipped");
    ContainsAt("skipped", "skipped", 0);
    FindNext(WORDING.columns, name);
    FindNext(c1, name);
    FindNext(c2, name);
    FindNext(c3, name);
    FindNext(c4, name);
    assert FindColumn(c5, name) == Some(0);
  }

  lemma {:induction false} FirstTitles()
    ensures forall i :: 0 <= i < 4 ==> CleanCell(WORDING.columns[i]) && '\n' !in WORDING.columns[i]
  {
    var c := WORDING.columns;
    assert CleanCell(c[0]) && CleanCell(c[1]) && CleanCell(c[2]) && CleanCell(c[3]);
  }

  lemma {:induction false} LastTitles()
    ensures forall i :: 4 <= i < 8 ==> CleanCell(WORDING.columns[i]) && '\n' !in WORDING.columns[i]
  {
    var c := WORDING.columns;
    assert CleanCell(c[4]) && CleanCell(c[5]) && CleanCell(c[6]) && CleanCell(c[7]);
  }

  lemma {:induction false} ActualColumns()
    ensures SummaryColumns(WORDING.columns)
  {
    TestsColumn();
    PassedColumn();
    SkippedColumn();
    FirstTitles();
    LastTitles();
  }

  lemma {:induction false} ActualHeadlines()
    ensures Opening(WORDING.summary) && Opening(WORDING.details) && Opening(WORDING.heading)
  {
  }

  lemma {:induction false} ActualAnchor()
    ensures Opening(WORDING.anchor.0) && Bare(WORDING.anchor.1)
  {
  }

  lemma {:induction false} ActualAlias()
    ensures Opening(WORDING.alias.0) && Bare(WORDING.alias.1) && Bare(WORDING.alias.2) && Bare(WORDING.alias.3)
  {
  }

  lemma {:induction false} ActualModuleTable()
    ensures ModuleColumns(WORDING.moduleColumns)
  {
    var c := WORDING.moduleColumns;
    assert Bare(c[0]) && Bare(c[1]) && Bare(c[2]);
  }

  lemma {:induction false} ActualRules()
    ensures Ruled(WORDING.rule) && Ruled(WORDING.moduleRule)
  {
  }

  lemma {:induction false} ActualWording()
    ensures GoodWording(WORDING)
  {
    ActualRules();
    ActualColumns();
    ActualHeadlines();
    ActualAnchor();
    ActualAlias();
    ActualModuleTable();
  }

  // ---------- Lines before the first table ----------

  /** One line that starts neither with a bar nor as the header does. */
  predicate TextLine(x: string) {
    x != "" && !IsWhite(x[0]) && x[0] != '|' && x[0] != 'P' && '\n' !in x
  }

  /** Before the first header the parser passes over any text line, however many bars it has. */
  lemma {:induction false} TextSkipped(line: string)
    requires TextLine(line)
    ensures Skips(ParseLine, START, Split(line + "\n", '\n'))
  {
    TextFirstCell(line);
    NotHeader(START, line);
    EmptyIgnored(START);
    SkipNewline(ParseLine, START, line);
  }

  lemma {:induction false} NotHeader(st: Parser, line: string)
    requires st.columns.None? && (Cells(line)[0] == "" || Cells(line)[0][0] != 'P')
    ensures ParseLine(st, line) == Success(st)
  {
    assert "Plan"[0] == 'P';
  }

  lemma {:induction false} EightColumns()
    ensures |WORDING.columns| == 8
  {
  }

  // ---------- Each plan's counts ----------

  /** With distinct slugs, a plan is in the summary exactly when badged, with its own counts. */
  lemma {:induction false} SummaryRecovers(rs: seq<PlanResult>, k: nat)
    requires k < |rs| && forall i, j :: 0 <= i < j < |rs| ==> Slug(rs[i].alias) != Slug(rs[j].alias)
    ensures Slug(rs[k].alias) in Summary(rs) <==> Badged(Slug(rs[k].alias))
    ensures Badged(Slug(rs[k].alias)) ==> Summary(rs)[Slug(rs[k].alias)] == CountsOf(rs[k])
    decreases |rs|
  {
    var before, last := rs[..|rs| - 1], rs[|rs| - 1];
    if k < |rs| - 1 {
      SummaryRecovers(before, k);
    } else {
      SummaryLacks(before, Slug(last.alias));
    }
  }

  lemma {:induction false} SummaryLacks(rs: seq<PlanResult>, slug: string)
    requires forall i :: 0 <= i < |rs| ==> Slug(rs[i].alias) != slug
    ensures slug !in Summary(rs)
    decreases |rs|
  {
    if |rs| > 0 { SummaryLacks(rs[..|rs| - 1], slug); }
  }

  /** Distinct aliases that are slugs already are recovered under their own names. */
  lemma {:induction false} AliasesRecovered(rs: seq<PlanResult>, k: nat)
    requires k < |rs| && forall i, j :: 0 <= i < j < |rs| ==> rs[i].alias != rs[j].alias
    requires forall i :: 0 <= i < |rs| ==> forall c :: c in rs[i].alias ==> SlugChar(c)
    ensures rs[k].alias in Summary(rs) <==> Badged(rs[k].alias)
    ensures Badged(rs[k].alias) ==> Summary(rs)[rs[k].alias] == CountsOf(rs[k])
  {
    forall i | 0 <= i < |rs| ensures Slug(rs[i].alias) == rs[i].alias {
      SlugSame(rs[i].alias);
    }
    SummaryRecovers(rs, k);
  }

  // ---------- Badges ----------

  /** The message build_badge prints. */
  function BadgeMessage(c: Counts): string
    requires 0 <= c.passed && 0 <= c.skipped && 0 <= c.total
  {
    if c.total == 0 then DASH
    else if c.skipped > 0 then NatText(100 * c.passed / c.total) + "% \U{B7} " + NatText(c.skipped) + " skipped"
    else NatText(100 * c.passed / c.total) + "%"
  }

  /** The badge shows the printed rate, and nothing else unless modules were skipped. */
  lemma {:induction false} BadgeMatchesTable(p: PlanResult)
    ensures RateText(CountsOf(p).passed, |p.modules|) <= BadgeMessage(CountsOf(p))
    ensures BadgeMessage(CountsOf(p)) == RateText(CountsOf(p).passed, |p.modules|) <==>
              CountsOf(p).skipped == 0 || p.modules == []
  {
    var c, t := CountsOf(p), |p.modules|;
    if t > 0 && c.skipped > 0 {
      var rate := NatText(100 * c.passed / t) + "%";
      assert BadgeMessage(c) == rate + (" \U{B7} " + NatText(c.skipped) + " skipped");
    }
  }
}
