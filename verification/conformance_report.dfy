/**
  The published conformance report: the Markdown document written from the suite's results
  and the badge generator's parser of its summary table.
 */
module ConformanceReport {
  import opened Options
  import opened Text

  datatype Module = Module(name: string, result: string, link: string)

  datatype PlanResult = PlanResult(alias: string, title: string, modules: seq<Module>)

  datatype Counts = Counts(passed: int, skipped: int, total: int)

  // ---------- Counting ----------

  function CountResult(ms: seq<Module>, r: string): nat {
    if |ms| == 0 then 0 else (if ms[0].result == r then 1 else 0) + CountResult(ms[1..], r)
  }

  /** The results of the modules, in order. */
  ghost function Verdicts(ms: seq<Module>): seq<string> {
    seq(|ms|, i requires 0 <= i < |ms| => ms[i].result)
  }

  /** A count is the number of times the result occurs. */
  lemma {:induction false} CountIsOccurrences(ms: seq<Module>, r: string)
    ensures CountResult(ms, r) == multiset(Verdicts(ms))[r]
    decreases |ms|
  {
    if |ms| > 0 {
      CountIsOccurrences(ms[1..], r);
      assert Verdicts(ms) == [ms[0].result] + Verdicts(ms[1..]);
    }
  }

  /** The five printed columns partition the modules. */
  lemma {:induction false} CountsFit(ms: seq<Module>)
    ensures CountResult(ms, "PASSED") + CountResult(ms, "REVIEW") + CountResult(ms, "FAILED") +
            CountResult(ms, "SKIPPED") <= |ms|
    decreases |ms|
  {
    if |ms| > 0 { CountsFit(ms[1..]); }
  }

  function CountsOf(p: PlanResult): Counts {
    Counts(CountResult(p.modules, "PASSED"), CountResult(p.modules, "SKIPPED"), |p.modules|)
  }

  // ---------- The printer ----------

  predicate SlugChar(c: char) {
    'a' <= c <= 'z' || '0' <= c <= '9' || c == '_' || c == '-'
  }

  /** re.sub of each run of other characters by one dash. */
  function Dashed(s: string, inRun: bool): (r: string)
    ensures forall i :: 0 <= i < |r| ==> SlugChar(r[i])
  {
    if s == "" then ""
    else if SlugChar(s[0]) then [s[0]] + Dashed(s[1..], false)
    else (if inRun then "" else "-") + Dashed(s[1..], true)
  }

  function Slug(alias: string): (r: string)
    ensures forall i :: 0 <= i < |r| ==> SlugChar(r[i])
  {
    Dashed(Lower(alias), false)
  }

  lemma {:induction false} DashedSame(s: string)
    requires forall i :: 0 <= i < |s| ==> SlugChar(s[i])
    ensures Dashed(s, false) == s
    decreases |s|
  {
    if s != "" {
      DashedSame(s[1..]);
      assert s == [s[0]] + s[1..];
    }
  }

  /** An alias already made of slug characters is its own slug. */
  lemma {:induction false} SlugSame(alias: string)
    requires forall i :: 0 <= i < |alias| ==> SlugChar(alias[i])
    ensures Slug(alias) == alias
  {
    assert Lower(alias) == alias;
    DashedSame(alias);
  }

  lemma {:induction false} DashedAppend(a: string, b: string, inRun: bool)
    requires a != "" && SlugChar(a[|a| - 1])
    ensures Dashed(a + b, inRun) == Dashed(a, inRun) + Dashed(b, false)
    decreases |a|
  {
    assert (a + b)[0] == a[0] && (a + b)[1..] == a[1..] + b;
    if |a| == 1 {
      assert a[1..] == "";
    } else {
      DashedAppend(a[1..], b, !SlugChar(a[0]));
    }
  }

  lemma {:induction false} RunVanishes(run: string, b: string)
    requires forall i :: 0 <= i < |run| ==> !SlugChar(run[i])
    requires b == "" || SlugChar(b[0])
    ensures Dashed(run + b, true) == Dashed(b, false)
    decreases |run|
  {
    if run == "" {
      assert run + b == b;
    } else {
      assert (run + b)[0] == run[0] && (run + b)[1..] == run[1..] + b;
      RunVanishes(run[1..], b);
    }
  }

  /** A run of other characters between slug characters becomes one dash. */
  lemma {:induction false} RunBecomesDash(a: string, run: string, b: string)
    requires a != "" && SlugChar(a[|a| - 1]) && run != "" && (b == "" || SlugChar(b[0]))
    requires forall i :: 0 <= i < |run| ==> !SlugChar(run[i])
    ensures Dashed(a + (run + b), false) == Dashed(a, false) + "-" + Dashed(b, false)
  {
    DashedAppend(a, run + b, false);
    assert (run + b)[0] == run[0] && (run + b)[1..] == run[1..] + b;
    RunVanishes(run[1..], b);
  }

  const DASH: string := "\U{2014}"

  function RateText(p: nat, t: nat): string {
    if t == 0 then DASH else NatText(100 * p / t) + "%"
  }

  /** A Markdown table row. */
  function TableRow(cells: seq<string>): string {
    "| " + Join(cells, " | ") + " |"
  }

  /** The fixed text of the document. */
  datatype Wording = Wording(
    summary: string,
    columns: seq<string>,
    rule: Rule,
    details: string,
    anchor: (string, string),
    heading: string,
    alias: (string, string, string, string),
    moduleColumns: seq<string>,
    moduleRule: Rule)

  /** A rule of dashes under a table header: widths of its first cell and of the others. */
  datatype Rule = Rule(first: nat, others: seq<RuleCell>)

  datatype RuleCell = RuleCell(width: nat, right: bool)

  const WORDING: Wording := Wording(
    "## Summary",
    ["Plan", "Tests", "\U{2705} Passed", "\U{1F50D} Review", "\U{274C} Failed", "Skipped", "Other / incomplete", "Pass rate"],
    Rule(6, [RuleCell(6, true), RuleCell(10, true), RuleCell(10, true), RuleCell(10, true), RuleCell(8, true),
             RuleCell(19, true), RuleCell(10, true)]),
    "## Per-plan Results",
    ("<a id=\"", "\"></a>"),
    "### ",
    ("**Alias:** `", "` &nbsp;", "&nbsp; **", " passing**"),
    ["Test module", "Result", "Log"],
    Rule(13, [RuleCell(8, false), RuleCell(5, false)]))

  function Dashes(n: nat): (s: string)
    ensures |s| == n && forall i :: 0 <= i < n ==> s[i] == '-'
  {
    seq(n, _ => '-')
  }

  function RuleTexts(cells: seq<RuleCell>): seq<string> {
    seq(|cells|, i requires 0 <= i < |cells| => Dashes(cells[i].width) + (if cells[i].right then ":" else ""))
  }

  function RuleRow(rule: Rule): string {
    "|" + (Dashes(rule.first) + "|" + Join(RuleTexts(rule.others), "|")) + "|"
  }

  function LabelCell(title: string, slug: string): string {
    "[" + title + "](#" + slug + ")"
  }

  function SummaryCells(p: PlanResult): seq<string> {
    var ms := p.modules;
    var passed, review, failed, skipped :=
      CountResult(ms, "PASSED"), CountResult(ms, "REVIEW"), CountResult(ms, "FAILED"), CountResult(ms, "SKIPPED");
    CountsFit(ms);
    [LabelCell(p.title, Slug(p.alias)), NatText(|ms|), NatText(passed), NatText(review), NatText(failed),
     NatText(skipped), NatText(|ms| - passed - review - failed - skipped), "**" + RateText(passed, |ms|) + "**"]
  }

  function Emoji(result: string): string {
    match result
    case "PASSED" => "\U{2705}"
    case "REVIEW" => "\U{1F50D}"
    case "WARNING" => "\U{26A0}\U{FE0F}"
    case "FAILED" => "\U{274C}"
    case "SKIPPED" => "\U{23ED}\U{FE0F}"
    case "INTERRUPTED" => "\U{26D4}"
    case _ => "\U{2753}"
  }

  function ModuleCells(m: Module): seq<string> {
    ["`" + m.name + "`", Emoji(m.result) + " " + m.result, if m.link == "" then DASH else "[view](" + m.link + ")"]
  }

  function ModuleLine(m: Module): string {
    TableRow(ModuleCells(m))
  }

  function ModuleLines(ms: seq<Module>): seq<string> {
    seq(|ms|, i requires 0 <= i < |ms| => ModuleLine(ms[i]))
  }

  function AnchorText(w: Wording, p: PlanResult): string {
    w.anchor.0 + Slug(p.alias) + w.anchor.1
  }

  function HeadingText(w: Wording, p: PlanResult): string {
    w.heading + p.title
  }

  function AliasText(w: Wording, p: PlanResult): string {
    (w.alias.0 + p.alias + w.alias.1) + "|" +
    (w.alias.2 + NatText(CountResult(p.modules, "PASSED")) + "/" + NatText(|p.modules|) + w.alias.3)
  }

  /** The head of a plan's details; elements ending in a newline leave a blank line. */
  function DetailHead(w: Wording, p: PlanResult): seq<string> {
    [AnchorText(w, p) + "\n", HeadingText(w, p) + "\n", AliasText(w, p) + "\n",
     TableRow(w.moduleColumns), RuleRow(w.moduleRule)]
  }

  function DetailLines(w: Wording, p: PlanResult): seq<string> {
    DetailHead(w, p) + ModuleLines(p.modules) + [""]
  }

  function SummaryRows(rs: seq<PlanResult>): seq<string> {
    seq(|rs|, i requires 0 <= i < |rs| => TableRow(SummaryCells(rs[i])))
  }

  function AllDetails(w: Wording, rs: seq<PlanResult>): seq<string> {
    if |rs| == 0 then [] else AllDetails(w, rs[..|rs| - 1]) + DetailLines(w, rs[|rs| - 1])
  }

  function TableHead(w: Wording): seq<string> {
    [w.summary + "\n", TableRow(w.columns), RuleRow(w.rule)]
  }

  /** The document's elements; `preamble` and `tail` are the parts not made from results. */
  function DocumentLines(w: Wording, preamble: seq<string>, rs: seq<PlanResult>, tail: seq<string>): seq<string> {
    preamble + TableHead(w) + SummaryRows(rs) + (["", w.details + "\n"] + AllDetails(w, rs) + tail)
  }

  /** render_md's loop over the plans for the summary table. */
  method RenderSummary(rs: seq<PlanResult>) returns (lines: seq<string>)
    ensures lines == SummaryRows(rs)
  {
    lines := [];
    for i := 0 to |rs|
      invariant lines == SummaryRows(rs[..i])
    {
      lines := lines + [TableRow(SummaryCells(rs[i]))];
      assert SummaryRows(rs[..i + 1]) == SummaryRows(rs[..i]) + [TableRow(SummaryCells(rs[i]))];
    }
    assert rs[..|rs|] == rs;
  }

  /** render_md's loop over the plans for their details. */
  method RenderDetails(w: Wording, rs: seq<PlanResult>) returns (lines: seq<string>)
    ensures lines == AllDetails(w, rs)
  {
    lines := [];
    for i := 0 to |rs|
      invariant lines == AllDetails(w, rs[..i])
    {
      var detail := RenderDetail(w, rs[i]);
      lines := lines + detail;
      assert rs[..i + 1][..i] == rs[..i];
    }
    assert rs[..|rs|] == rs;
  }

  /** render_md's list of lines, between its opening lines and its closing ones. */
  method RenderLines(w: Wording, preamble: seq<string>, rs: seq<PlanResult>, tail: seq<string>) returns (lines: seq<string>)
    ensures lines == DocumentLines(w, preamble, rs, tail)
  {
    lines := preamble;
    lines := lines + [w.summary + "\n", TableRow(w.columns), RuleRow(w.rule)];
    var rows := RenderSummary(rs);
    lines := lines + rows;
    var details := RenderDetails(w, rs);
    lines := lines + (["", w.details + "\n"] + details + tail);
  }

  method RenderDetail(w: Wording, p: PlanResult) returns (lines: seq<string>)
    ensures lines == DetailLines(w, p)
  {
    lines := DetailHead(w, p);
    for i := 0 to |p.modules|
      invariant lines == DetailHead(w, p) + ModuleLines(p.modules[..i])
    {
      lines := lines + [ModuleLine(p.modules[i])];
      assert ModuleLines(p.modules[..i + 1]) == ModuleLines(p.modules[..i]) + [ModuleLine(p.modules[i])];
    }
    assert p.modules[..|p.modules|] == p.modules;
    lines := lines + [""];
  }

  // ---------- The parser ----------

  /** Each part stripped. */
  function Stripped(parts: seq<string>): (cells: seq<string>)
    ensures |cells| == |parts|
    ensures forall i :: 0 <= i < |parts| ==> cells[i] == Trim(parts[i], White)
  {
    seq(|parts|, i requires 0 <= i < |parts| => Trim(parts[i], White))
  }

  function Cells(line: string): (cells: seq<string>)
    ensures |cells| >= 1
  {
    Stripped(Split(Trim(Trim(line, White), Bar), '|'))
  }

  const LINK: string := "](#clavex-"

  /** The length of the leading run of characters other than a closing parenthesis. */
  function Unclosed(s: string): (n: nat)
    ensures n <= |s|
    ensures forall i :: 0 <= i < n ==> s[i] != ')'
    ensures n < |s| ==> s[n] == ')'
  {
    if s == "" || s[0] == ')' then 0 else 1 + Unclosed(s[1..])
  }

  /** A match of the link pattern at the start of s, giving its captured alias. */
  function LinkAt(s: string): Option<string> {
    if LINK <= s then
      var body := s[|LINK|..];
      var n := Unclosed(body);
      if 0 < n < |body| then Some("clavex-" + body[..n]) else None
    else None
  }

  /** re.search: the leftmost match. */
  function LinkIn(s: string): Option<string> {
    if LinkAt(s).Some? then LinkAt(s) else if s == "" then None else LinkIn(s[1..])
  }

  function AliasIn(title: string): string {
    match LinkIn(title)
    case Some(alias) => alias
    case None => Trim(title, Tick)
  }

  /** The first column whose title contains the name, ignoring case. */
  function FindColumn(columns: seq<string>, name: string): (r: Option<nat>)
    ensures r.Some? ==> r.value < |columns|
  {
    if |columns| == 0 then None
    else if Contains(Lower(columns[0]), Lower(name)) then Some(0)
    else
      match FindColumn(columns[1..], name)
      case None => None
      case Some(i) => Some(i + 1)
  }

  function Number(columns: seq<string>, cells: seq<string>, name: string): Option<int>
    requires |columns| == |cells|
  {
    match FindColumn(columns, name)
    case None => Some(0)
    case Some(i) => ParseInt(cells[i])
  }

  datatype Parser = Parser(columns: Option<seq<string>>, results: map<string, Counts>)

  datatype Result<+T> = Success(value: T) | Raised

  /** The loop body of parse_conformance_md. */
  function ParseLine(st: Parser, line: string): Result<Parser> {
    ParseCells(st, Cells(line))
  }

  function ParseCells(st: Parser, cells: seq<string>): Result<Parser>
    requires |cells| >= 1
  {
    if cells[0] == "Plan" then Success(st.(columns := Some(cells)))
    else if st.columns.None? || |cells| != |st.columns.value| then Success(st)
    else
      var alias := AliasIn(cells[0]);
      if !("clavex-" <= alias) then Success(st)
      else
        match (Number(st.columns.value, cells, "Tests"), Number(st.columns.value, cells, "Passed"),
               Number(st.columns.value, cells, "Skipped"))
        case (Some(total), Some(passed), Some(skipped)) =>
          if total < 0 || passed < 0 || skipped < 0 || passed + skipped > total then Raised
          else Success(st.(results := st.results[alias := Counts(passed, skipped, total)]))
        case _ => Raised
  }

  /** Counts that can be, under an alias that may have a badge. */
  ghost predicate Sound(results: map<string, Counts>) {
    forall alias {:trigger results[alias]} :: alias in results ==>
      && "clavex-" <= alias
      && var c := results[alias];
         0 <= c.passed && 0 <= c.skipped && c.passed + c.skipped <= c.total
  }

  /** Whatever the document says, what is read from it can be. */
  lemma {:induction false} ParsedSound(st: Parser, lines: seq<string>)
    requires Sound(st.results)
    ensures ParseLines(st, lines).Success? ==> Sound(ParseLines(st, lines).value.results)
    decreases |lines|
  {
    if |lines| > 0 {
      LineSound(st, Cells(lines[0]));
      match ParseLine(st, lines[0]) {
        case Raised =>
        case Success(next) => ParsedSound(next, lines[1..]);
      }
    }
  }

  lemma {:induction false} LineSound(st: Parser, cells: seq<string>)
    requires Sound(st.results) && |cells| >= 1
    ensures ParseCells(st, cells).Success? ==> Sound(ParseCells(st, cells).value.results)
  {
  }

  type Step = (Parser, string) -> Result<Parser>

  function Fold(step: Step, st: Parser, lines: seq<string>): Result<Parser>
    decreases |lines|
  {
    if |lines| == 0 then Success(st)
    else
      match step(st, lines[0])
      case Raised => Raised
      case Success(next) => Fold(step, next, lines[1..])
  }

  /** The parser's loop over the lines of its source. */
  method ReadLines(step: Step, start: Parser, lines: seq<string>) returns (r: Result<Parser>)
    ensures r == Fold(step, start, lines)
  {
    var st := start;
    for i := 0 to |lines|
      invariant Fold(step, start, lines) == Fold(step, st, lines[i..])
    {
      assert lines[i..][0] == lines[i] && lines[i..][1..] == lines[i + 1..];
      var next := step(st, lines[i]);
      if next.Raised? {
        return Raised;
      }
      st := next.value;
    }
    r := Success(st);
  }

  function ParseLines(st: Parser, lines: seq<string>): Result<Parser> {
    Fold(ParseLine, st, lines)
  }

  const START: Parser := Parser(None, map[])

  /** parse_conformance_md, reading the text line by line. */
  method ParseConformanceMd(text: string) returns (r: Result<map<string, Counts>>)
    ensures match ParseLines(START, Split(text, '\n'))
            case Raised => r.Raised?
            case Success(st) => r == Success(st.results)
    ensures r.Success? ==> Sound(r.value)
  {
    ParsedSound(START, Split(text, '\n'));
    var parsed := ReadLines(ParseLine, START, Split(text, '\n'));
    match parsed {
      case Raised => r := Raised;
      case Success(st) => r := Success(st.results);
    }
  }
}
