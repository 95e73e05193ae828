/** Parsing a rendered conformance report recovers the counts it was rendered from. */
module ConformanceRoundTrip {
  import opened Options
  import opened Text
  import opened ConformanceReport

  // ---------- Table rows ----------

  predicate CleanCell(c: string) {
    Tight(c, White) && '|' !in c
  }

  function Padded(cells: seq<string>): seq<string> {
    seq(|cells|, i requires 0 <= i < |cells| => " " + cells[i] + " ")
  }

  lemma {:induction false} SplitRow(cells: seq<string>)
    requires |cells| >= 1 && forall i :: 0 <= i < |cells| ==> '|' !in cells[i]
    ensures Split(" " + Join(cells, " | ") + " ", '|') == Padded(cells)
    decreases |cells|
  {
    var first := " " + cells[0] + " ";
    SplitWhole(first, '|');
    if |cells| == 1 {
      assert Padded(cells) == [first];
    } else {
      var rest := " " + Join(cells[1..], " | ") + " ";
      assert " " + Join(cells, " | ") + " " == first + ['|'] + rest;
      SplitAppend(first, '|', rest);
      SplitRow(cells[1..]);
      assert Padded(cells) == [first] + Padded(cells[1..]);
    }
  }

  /** Splitting a row of clean cells gives the cells back. */
  lemma {:induction false} RowCells(cells: seq<string>)
    requires |cells| >= 1 && forall i :: 0 <= i < |cells| ==> CleanCell(cells[i])
    ensures Cells(TableRow(cells)) == cells
  {
    RowInner(TableRow(cells), " " + Join(cells, " | ") + " ");
    SplitRow(cells);
    PaddedStripped(cells);
  }

  /** What is left of a row between its outer bars. */
  lemma {:induction false} RowInner(line: string, inner: string)
    requires |inner| >= 2 && inner[0] == ' ' && inner[|inner| - 1] == ' ' && line == ['|'] + inner + ['|']
    ensures Trim(Trim(line, White), Bar) == inner
  {
    TrimTight(line, White);
    TrimPadded('|', inner, '|', Bar);
  }

  lemma {:induction false} PaddedStripped(cells: seq<string>)
    requires forall i :: 0 <= i < |cells| ==> CleanCell(cells[i])
    ensures Stripped(Padded(cells)) == cells
  {
    forall i | 0 <= i < |cells| ensures Trim(Padded(cells)[i], White) == cells[i] {
      TrimPadded(' ', cells[i], ' ', White);
      assert [' '] + cells[i] + [' '] == Padded(cells)[i];
    }
  }

  // ---------- Links ----------

  lemma {:induction false} LinkSkip(before: string, rest: string)
    requires ']' !in before
    ensures LinkIn(before + rest) == LinkIn(rest)
    decreases |before|
  {
    if before == "" {
      assert before + rest == rest;
    } else {
      var s := before + rest;
      assert s[0] == before[0] && before[0] in before;
      assert !(LINK <= s) by { assert LINK[0] == ']'; }
      assert s[1..] == before[1..] + rest;
      LinkSkip(before[1..], rest);
    }
  }

  lemma {:induction false} LinkNone(s: string)
    requires ']' !in s
    ensures LinkIn(s) == None
  {
    LinkSkip(s, "");
    assert s + "" == s;
    assert !(LINK <= "");
  }

  /** The slugs the parser recognises. */
  predicate Badged(slug: string) {
    "clavex-" <= slug && |slug| > 7
  }

  lemma {:induction false} SlugPlain(slug: string)
    requires forall i :: 0 <= i < |slug| ==> SlugChar(slug[i])
    ensures ']' !in slug && ')' !in slug && '|' !in slug
  {
    forall c | c in slug ensures SlugChar(c) {
      var i :| 0 <= i < |slug| && slug[i] == c;
    }
  }

  /** s is the closing part of a summary link to a slug. */
  predicate LinkEnd(s: string, slug: string) {
    s == "](#" + slug + ")" && ']' !in slug && ')' !in slug
  }

  lemma {:induction false} LinkOfSlug(s: string, slug: string)
    requires LinkEnd(s, slug)
    ensures LinkIn(s) == if Badged(slug) then Some(slug) else None
  {
    LinkOnlyFirst(s, slug);
    if Badged(slug) {
      LinkBadged(s, slug);
    } else {
      NoLinkAt(s, slug);
    }
  }

  lemma {:induction false} LinkOnlyFirst(s: string, slug: string)
    requires LinkEnd(s, slug)
    ensures LinkIn(s) == LinkAt(s)
  {
    assert s[1..] == "(#" + slug + ")";
    LinkNone(s[1..]);
  }

  lemma {:induction false} LinkBadged(s: string, slug: string)
    requires LinkEnd(s, slug) && Badged(slug)
    ensures LinkAt(s) == Some(slug)
  {
    var rest := slug[7..];
    assert slug == "clavex-" + rest;
    LinkAtBody(rest);
    assert s == LINK + (rest + ")");
  }

  lemma {:induction false} LinkAtBody(rest: string)
    requires rest != "" && ')' !in rest
    ensures LinkAt(LINK + (rest + ")")) == Some("clavex-" + rest)
  {
    var body := rest + ")";
    assert (LINK + body)[|LINK|..] == body;
    var n := Unclosed(body);
    assert forall i :: 0 <= i < |rest| ==> body[i] == rest[i] && rest[i] in rest;
    assert body[|rest|] == ')';
    assert n == |rest|;
    assert body[..n] == rest;
  }

  lemma {:induction false} NoLinkAt(s: string, slug: string)
    requires LinkEnd(s, slug) && !Badged(slug)
    ensures LinkAt(s) == None
  {
    if LINK <= s {
      if |slug| < 7 {
        assert s[3 + |slug|] == ')' && LINK[3 + |slug|] == s[3 + |slug|];
      } else {
        assert slug[..7] == s[3..10] == LINK[3..10] == "clavex-";
        assert s[10..] == ")";
      }
    }
  }

  /** A link opens at the start of s, with something other than its end after it. */
  predicate OpensLink(s: string) {
    LINK <= s && (|s| == |LINK| || s[|LINK|] != ')')
  }

  /** No link opens anywhere in the title. */
  predicate Unlinked(title: string) {
    forall p :: 0 <= p <= |title| ==> !OpensLink(title[p..])
  }

  lemma {:induction false} UnlinkedTail(title: string)
    requires title != ""
    ensures Unlinked(title) <==> !OpensLink(title) && Unlinked(title[1..])
  {
    assert title[0..] == title;
    assert forall p :: 1 <= p <= |title| ==> title[p..] == title[1..][p - 1..];
  }

  /** No match of the pattern straddles the end of the title. */
  lemma {:induction false} NoStraddle(before: string, rest: string)
    requires before != "" && rest != "" && rest[0] == ']' && LINK <= before + rest
    ensures LINK <= before
  {
    var s := before + rest;
    assert s[|before|] == ']' && forall j :: 1 <= j < |LINK| ==> LINK[j] != ']';
    assert s[..|LINK|] == LINK && forall j :: 0 <= j < |LINK| ==> s[..|LINK|][j] == s[j];
  }

  /** A search passes over a title in which no link opens. */
  lemma {:induction false} UnlinkedSkip(before: string, rest: string)
    requires Unlinked(before) && rest != "" && rest[0] == ']'
    ensures LinkIn(before + rest) == LinkIn(rest)
    decreases |before|
  {
    var s := before + rest;
    if before == "" {
      assert s == rest;
    } else {
      UnlinkedTail(before);
      if LINK <= s {
        NoStraddle(before, rest);
        assert s[|LINK|..][0] == ')';
      }
      assert s[1..] == before[1..] + rest;
      UnlinkedSkip(before[1..], rest);
    }
  }

  lemma {:induction false} LabelAlias(title: string, slug: string)
    requires Unlinked(title) && forall i :: 0 <= i < |slug| ==> SlugChar(slug[i])
    ensures Badged(slug) ==> AliasIn(LabelCell(title, slug)) == slug
    ensures !Badged(slug) ==> !("clavex-" <= AliasIn(LabelCell(title, slug)))
  {
    var cell, end := LabelCell(title, slug), "](#" + slug + ")";
    assert cell == "[" + (title + end);
    LinkSkip("[", title + end);
    UnlinkedSkip(title, end);
    SlugPlain(slug);
    LinkOfSlug(end, slug);
    TrimKeepsFirst(cell, Tick);
  }

  /** What is read instead where a link opens in the title. */
  function Misread(title: string, slug: string): string
    requires !Unlinked(title)
  {
    if OpensLink(title) then
      var t := title[|LINK|..];
      "clavex-" + (if Unclosed(t) < |t| then t[..Unclosed(t)] else t + ("](#" + slug))
    else
      assert title != "" by { assert title[0..] == title; }
      UnlinkedTail(title);
      Misread(title[1..], slug)
  }

  lemma {:induction false} UnclosedAppend(t: string, rest: string)
    ensures Unclosed(t + rest) == if Unclosed(t) < |t| then Unclosed(t) else |t| + Unclosed(rest)
    decreases |t|
  {
    if t == "" {
      assert t + rest == rest;
    } else {
      assert (t + rest)[1..] == t[1..] + rest;
      UnclosedAppend(t[1..], rest);
    }
  }

  lemma {:induction false} UnclosedWhole(s: string)
    requires ')' !in s
    ensures Unclosed(s + ")") == |s|
  {
    UnclosedAppend(s, ")");
    assert forall i :: 0 <= i < |s| ==> s[i] in s;
  }

  /** Up to the first closing parenthesis of t, or of what follows it. */
  lemma {:induction false} ReadOn(t: string, link: string)
    requires link != "" && ')' !in link && (t == "" || t[0] != ')')
    ensures var body := t + (link + ")");
            var n := Unclosed(body);
            0 < n < |body| && body[..n] == if Unclosed(t) < |t| then t[..Unclosed(t)] else t + link
  {
    UnclosedAppend(t, link + ")");
    UnclosedWhole(link);
    var body := t + (link + ")");
    if Unclosed(t) < |t| {
      assert body[..Unclosed(t)] == t[..Unclosed(t)];
    } else {
      assert body[..|t| + |link|] == t + link;
    }
  }

  /** A link that opens in the title is read to its end, in the title or in the cell. */
  lemma {:induction false} OpenLinkRead(title: string, slug: string)
    requires OpensLink(title) && ')' !in slug
    ensures !Unlinked(title)
    ensures LinkAt(title + ("](#" + slug + ")")) == Some(Misread(title, slug))
  {
    assert title[0..] == title && OpensLink(title[0..]);
    var t, link := title[|LINK|..], "](#" + slug;
    var s := title + (link + ")");
    assert s == title + ("](#" + slug + ")");
    assert t != "" ==> t[0] == title[|LINK|];
    ReadOn(t, link);
    OpensAppend(title, link + ")");
  }

  lemma {:induction false} OpensAppend(title: string, rest: string)
    requires LINK <= title
    ensures LINK <= title + rest && (title + rest)[|LINK|..] == title[|LINK|..] + rest
  {
  }

  lemma {:induction false} LinkMisread(title: string, slug: string)
    requires !Unlinked(title) && ')' !in slug
    ensures LinkIn(title + ("](#" + slug + ")")) == Some(Misread(title, slug))
    decreases |title|
  {
    var end := "](#" + slug + ")";
    var s := title + end;
    if OpensLink(title) {
      OpenLinkRead(title, slug);
    } else {
      assert title != "" by { assert title[0..] == title; }
      UnlinkedTail(title);
      if LINK <= s {
        NoStraddle(title, end);
        assert s[|LINK|..][0] == ')';
      }
      assert s[1..] == title[1..] + end;
      LinkMisread(title[1..], slug);
    }
  }

  /** Of two slugs such a title can stand for one at most. */
  lemma {:induction false} MisreadWrong(title: string, a: string, b: string)
    requires !Unlinked(title) && a != b && ']' !in a && ']' !in b
    ensures Misread(title, a) != a || Misread(title, b) != b
    decreases |title|
  {
    if OpensLink(title) {
      var t := title[|LINK|..];
      if Unclosed(t) >= |t| {
        var m := "clavex-" + (t + ("](#" + a));
        assert m[7 + |t|] == ']' && m[7 + |t|] in m;
      }
    } else {
      assert title != "" by { assert title[0..] == title; }
      UnlinkedTail(title);
      MisreadWrong(title[1..], a, b);
    }
  }

  /** A slug the parser recognises. */
  predicate BadgedSlug(slug: string) {
    Badged(slug) && forall i :: 0 <= i < |slug| ==> SlugChar(slug[i])
  }

  /**
    The exact condition on titles: under a title every plan's alias is read back if and only
    if no link opens in it. Brackets and parentheses as such do no harm.
   */
  lemma {:induction false} TitleReadIff(title: string, a: string, b: string)
    requires BadgedSlug(a) && BadgedSlug(b) && a != b
    ensures (forall slug {:trigger BadgedSlug(slug)} :: BadgedSlug(slug) ==> AliasIn(LabelCell(title, slug)) == slug) <==>
              Unlinked(title)
  {
    if Unlinked(title) {
      forall slug | BadgedSlug(slug) ensures AliasIn(LabelCell(title, slug)) == slug {
        LabelAlias(title, slug);
      }
    } else {
      LabelMisread(title, a);
      LabelMisread(title, b);
      SlugPlain(a);
      SlugPlain(b);
      MisreadWrong(title, a, b);
    }
  }

  lemma {:induction false} LabelMisread(title: string, slug: string)
    requires !Unlinked(title) && BadgedSlug(slug)
    ensures AliasIn(LabelCell(title, slug)) == Misread(title, slug)
  {
    SlugPlain(slug);
    assert LabelCell(title, slug) == "[" + (title + ("](#" + slug + ")"));
    LinkSkip("[", title + ("](#" + slug + ")"));
    LinkMisread(title, slug);
  }

  /** A title that is itself a link is read as that link, whatever the plan. */
  lemma {:induction false} LinkTitleMisread(alias: string, slug: string)
    requires alias != "" && ')' !in alias && BadgedSlug(slug)
    ensures AliasIn(LabelCell(LINK + (alias + ")"), slug)) == "clavex-" + alias
  {
    var title := LINK + (alias + ")");
    assert title[|LINK|..] == alias + ")" && alias[0] in alias;
    assert OpensLink(title) && title[0..] == title;
    UnclosedWhole(alias);
    LabelMisread(title, slug);
    assert (alias + ")")[..|alias|] == alias;
  }

  // ---------- Columns ----------

  lemma {:induction false} TooShort(s: string, sub: string)
    requires |s| < |sub|
    ensures !Contains(s, sub)
  {
  }

  lemma {:induction false} ContainsAt(s: string, sub: string, i: nat)
    requires i <= |s| && sub <= s[i..]
    ensures Contains(s, sub)
  {
  }

  lemma {:induction false} LowerSame(s: string, t: string)
    requires |s| == |t| && forall i :: 0 <= i < |s| ==> LowerChar(s[i]) == t[i]
    ensures Lower(s) == t
  {
  }

  lemma {:induction false} FindNext(columns: seq<string>, name: string)
    requires |columns| > 0 && !Contains(Lower(columns[0]), Lower(name))
    ensures FindColumn(columns, name) == match FindColumn(columns[1..], name) case None => None case Some(i) => Some(i + 1)
  {
  }

  // ---------- Summary rows ----------

  predicate Plain(s: string) {
    '|' !in s && '\n' !in s && '\r' !in s
  }

  /** Text that may stand in a report without breaking its tables or lines. */
  predicate Printable(p: PlanResult) {
    && Plain(p.title) && Unlinked(p.title) && Plain(p.alias)
    && forall i :: 0 <= i < |p.modules| ==> Plain(p.modules[i].name) && Plain(p.modules[i].result) && Plain(p.modules[i].link)
  }

  /** The parser's results after a row for p. */
  function Record(m: map<string, Counts>, p: PlanResult): map<string, Counts> {
    if Badged(Slug(p.alias)) then m[Slug(p.alias) := CountsOf(p)] else m
  }

  lemma {:induction false} NumberClean(n: nat)
    ensures CleanCell(NatText(n))
  {
    var s := NatText(n);
    assert IsDigit(s[0]) && IsDigit(s[|s| - 1]);
    forall c | c in s ensures c != '|' {
      var i :| 0 <= i < |s| && s[i] == c;
      assert IsDigit(s[i]);
    }
  }

  lemma {:induction false} LabelClean(title: string, slug: string)
    requires Plain(title) && forall i :: 0 <= i < |slug| ==> SlugChar(slug[i])
    ensures CleanCell(LabelCell(title, slug))
  {
    var cell := LabelCell(title, slug);
    assert cell[0] == '[' && cell[|cell| - 1] == ')';
  }

  lemma {:induction false} RateClean(p: nat, t: nat)
    ensures CleanCell("**" + RateText(p, t) + "**")
  {
    var cell := "**" + RateText(p, t) + "**";
    assert cell[0] == '*' && cell[|cell| - 1] == '*';
    if t > 0 { NumberClean(100 * p / t); }
  }

  lemma {:induction false} SummaryCellsClean(p: PlanResult)
    requires Printable(p)
    ensures |SummaryCells(p)| == 8 && forall i :: 0 <= i < 8 ==> CleanCell(SummaryCells(p)[i])
  {
    var ms, cells := p.modules, SummaryCells(p);
    CountsFit(ms);
    var passed, review, failed, skipped :=
      CountResult(ms, "PASSED"), CountResult(ms, "REVIEW"), CountResult(ms, "FAILED"), CountResult(ms, "SKIPPED");
    LabelClean(p.title, Slug(p.alias));
    NumberClean(|ms|);
    NumberClean(passed);
    NumberClean(review);
    NumberClean(failed);
    NumberClean(skipped);
    NumberClean(|ms| - passed - review - failed - skipped);
    RateClean(passed, |ms|);
  }

  /** Titles of the summary table that the parser reads as intended. */
  predicate SummaryColumns(columns: seq<string>) {
    && |columns| == 8
    && columns[0] == "Plan"
    && (forall i :: 0 <= i < 8 ==> CleanCell(columns[i]) && '\n' !in columns[i])
    && FindColumn(columns, "Tests") == Some(1)
    && FindColumn(columns, "Passed") == Some(2)
    && FindColumn(columns, "Skipped") == Some(5)
  }

  lemma {:induction false} RowNumbers(columns: seq<string>, p: PlanResult)
    requires SummaryColumns(columns)
    ensures Number(columns, SummaryCells(p), "Tests") == Some(|p.modules|)
    ensures Number(columns, SummaryCells(p), "Passed") == Some(CountsOf(p).passed)
    ensures Number(columns, SummaryCells(p), "Skipped") == Some(CountsOf(p).skipped)
  {
    ParseNatText(|p.modules|);
    ParseNatText(CountResult(p.modules, "PASSED"));
    ParseNatText(CountResult(p.modules, "SKIPPED"));
  }

  /** A rendered row records exactly the plan's counts, or nothing for an unbadged slug. */
  lemma {:induction false} RowParses(columns: seq<string>, m: map<string, Counts>, p: PlanResult)
    requires SummaryColumns(columns) && Printable(p)
    ensures ParseLine(Parser(Some(columns), m), TableRow(SummaryCells(p))) == Success(Parser(Some(columns), Record(m, p)))
  {
    var cells := SummaryCells(p);
    SummaryCellsClean(p);
    RowCells(cells);
    LabelAlias(p.title, Slug(p.alias));
    RowNumbers(columns, p);
    CountsFit(p.modules);
    assert cells[0] == LabelCell(p.title, Slug(p.alias));
    assert cells[0] != "Plan" by { assert cells[0][0] == '['; }
    ParseCellsRow(columns, m, cells, CountsOf(p));
  }

  lemma {:induction false} ParseCellsRow(columns: seq<string>, m: map<string, Counts>, cells: seq<string>, counts: Counts)
    requires |cells| == |columns| >= 1 && cells[0] != "Plan"
    requires Number(columns, cells, "Tests") == Some(counts.total)
    requires Number(columns, cells, "Passed") == Some(counts.passed)
    requires Number(columns, cells, "Skipped") == Some(counts.skipped)
    requires 0 <= counts.passed && 0 <= counts.skipped && counts.passed + counts.skipped <= counts.total
    ensures var alias := AliasIn(cells[0]);
            ParseCells(Parser(Some(columns), m), cells) ==
              Success(Parser(Some(columns), if "clavex-" <= alias then m[alias := counts] else m))
  {
  }

  lemma {:induction false} HeaderParses(columns: seq<string>, st: Parser)
    requires SummaryColumns(columns)
    ensures ParseLine(st, TableRow(columns)) == Success(st.(columns := Some(columns)))
  {
    RowCells(columns);
  }

  /** A rule with no empty cell. */
  predicate Ruled(rule: Rule) {
    rule.first > 0 && rule.others != [] && forall i :: 0 <= i < |rule.others| ==> rule.others[i].width > 0
  }

  lemma {:induction false} RuleEnds(texts: seq<string>)
    requires texts != [] && forall i :: 0 <= i < |texts| ==> texts[i] != "" && '|' !in texts[i]
    ensures var j := Join(texts, "|"); j != "" && j[|j| - 1] != '|'
    decreases |texts|
  {
    if |texts| > 1 {
      RuleEnds(texts[1..]);
    } else {
      assert texts[0][|texts[0]| - 1] in texts[0];
    }
  }

  /** A table rule is neither a header nor a row. */
  lemma {:induction false} RuleIgnored(st: Parser, rule: Rule)
    requires Ruled(rule)
    ensures ParseLine(st, RuleRow(rule)) == Success(st) && '\n' !in RuleRow(rule)
  {
    var first, texts := Dashes(rule.first), RuleTexts(rule.others);
    assert forall i :: 0 <= i < |texts| ==> texts[i] != "" && '|' !in texts[i] && '\n' !in texts[i];
    RuleEnds(texts);
    JoinPlain(texts, "|", '\n');
    DashesIgnored(st, RuleRow(rule), first, Join(texts, "|"));
  }

  lemma {:induction false} DashesIgnored(st: Parser, line: string, first: string, rest: string)
    requires first != "" && forall i :: 0 <= i < |first| ==> first[i] == '-'
    requires rest != "" && rest[|rest| - 1] != '|'
    requires line == "|" + (first + "|" + rest) + "|"
    ensures ParseLine(st, line) == Success(st)
  {
    assert first[0] == '-' && first[|first| - 1] == '-' && '|' !in first;
    FirstCell(line, first, rest);
    DashAlias(first);
    NotPlan(first);
    IgnoredCells(st, Cells(line));
  }

  lemma {:induction false} DashAlias(first: string)
    requires first != "" && forall i :: 0 <= i < |first| ==> first[i] == '-'
    ensures AliasIn(first) == first
  {
    TrimTight(first, Tick);
    LinkNone(first);
  }

  lemma {:induction false} NotPlan(first: string)
    requires first != "" && first[0] == '-'
    ensures first != "Plan" && !("clavex-" <= first)
  {
    assert "Plan"[0] == 'P' && "clavex-"[0] == 'c';
  }

  /** The first cell of a line of the form |first|rest|. */
  lemma {:induction false} FirstCell(line: string, first: string, rest: string)
    requires first != "" && first[0] != '|' && !IsWhite(first[0]) && !IsWhite(first[|first| - 1]) && '|' !in first
    requires rest != "" && rest[|rest| - 1] != '|'
    requires line == "|" + (first + "|" + rest) + "|"
    ensures Cells(line)[0] == first
  {
    var inner := first + ['|'] + rest;
    assert line == ['|'] + inner + ['|'];
    TrimTight(line, White);
    TrimPadded('|', inner, '|', Bar);
    SplitAppend(first, '|', rest);
    SplitWhole(first, '|');
    TrimTight(first, White);
  }

  lemma {:induction false} IgnoredCells(st: Parser, cells: seq<string>)
    requires |cells| >= 1 && cells[0] != "Plan" && !("clavex-" <= AliasIn(cells[0]))
    ensures ParseCells(st, cells) == Success(st)
  {
  }

  // ---------- Lines the parser passes over ----------

  /** A line that is no table header and too short for a row of the summary table. */
  predicate Quiet(line: string) {
    Cells(line)[0] != "Plan" && |Cells(line)| < 8
  }

  /** The state of a parser that has seen no header, or the summary's. */
  predicate BetweenTables(st: Parser) {
    st.columns.Some? ==> |st.columns.value| == 8
  }

  lemma {:induction false} QuietIgnored(st: Parser, line: string)
    requires Quiet(line) && BetweenTables(st)
    ensures ParseLine(st, line) == Success(st)
  {
  }

  lemma {:induction false} FewCells(line: string)
    ensures |Cells(line)| <= Count(line, '|') + 1
  {
    var inner := Trim(line, White);
    TrimCount(line, White, '|');
    TrimCount(inner, Bar, '|');
    SplitCount(Trim(inner, Bar), '|');
  }

  lemma {:induction false} SplitFirst(s: string, sep: char, n: nat)
    requires 0 < n <= |s| && sep !in s[..n]
    ensures s[..n] <= Split(s, sep)[0]
  {
    assert s[0] == s[..n][0];
    if n > 1 {
      assert s[1..][..n - 1] == s[..n][1..];
      SplitFirst(s[1..], sep, n - 1);
      assert s[..n] == [s[0]] + s[1..][..n - 1];
    }
  }

  /** The first cell of ordinary text starts as the text does. */
  lemma {:induction false} TextFirstCell(line: string)
    requires line != "" && !IsWhite(line[0]) && line[0] != '|'
    ensures Cells(line)[0] != "" && Cells(line)[0][0] == line[0]
  {
    var a := Trim(line, White);
    TrimKeepsFirst(line, White);
    TrimKeepsFirst(a, Bar);
    var b := Trim(a, Bar);
    SplitFirst(b, '|', 1);
    TrimKeepsFirst(Split(b, '|')[0], White);
  }

  /** The first cell of a row starts after its bar and space. */
  lemma {:induction false} RowFirstCell(line: string)
    requires |line| >= 3 && line[0] == '|' && line[1] == ' ' && !IsWhite(line[2]) && line[2] != '|'
    ensures Cells(line)[0] != "" && Cells(line)[0][0] == line[2]
  {
    var a := Trim(line, White);
    TrimKeepsPrefix(line, White, 3);
    assert a[0] == line[..3][0] && a[1] == line[..3][1] && a[2] == line[..3][2];
    var b := Trim(a, Bar);
    BarDropped(a);
    SplitFirst(b, '|', 2);
    var c := Split(b, '|')[0];
    assert c[0] == ' ' && c[1] == line[2];
    SpaceDropped(c);
  }

  lemma {:induction false} BarDropped(a: string)
    requires |a| >= 3 && a[0] == '|' && a[1] == ' ' && a[2] != '|'
    ensures |Trim(a, Bar)| >= 2 && Trim(a, Bar)[0] == a[1] && Trim(a, Bar)[1] == a[2]
  {
    assert TrimLeft(a, Bar) == a[1..];
    TrimRightPrefix(a[1..], Bar, 2);
    assert Trim(a, Bar)[..2] == a[1..][..2];
    assert Trim(a, Bar)[..2][0] == a[1] && Trim(a, Bar)[..2][1] == a[2];
  }

  lemma {:induction false} SpaceDropped(c: string)
    requires |c| >= 2 && c[0] == ' ' && !IsWhite(c[1])
    ensures Trim(c, White) != "" && Trim(c, White)[0] == c[1]
  {
    assert TrimLeft(c, White) == c[1..];
    TrimRightKeeps(c[1..], White);
  }

  lemma {:induction false} QuietWhen(line: string)
    requires Cells(line)[0] == "" || Cells(line)[0][0] != 'P'
    requires Count(line, '|') <= 6
    ensures Quiet(line)
  {
    FewCells(line);
    assert "Plan"[0] == 'P';
  }

  lemma {:induction false} QuietEmpty()
    ensures Quiet("")
  {
    assert Split("", '|') == [""];
    QuietWhen("");
  }

  /** Text starting with an ordinary character and holding few bars is quiet. */
  lemma {:induction false} QuietProse(line: string)
    requires line != "" && !IsWhite(line[0]) && line[0] != '|' && line[0] != 'P' && Count(line, '|') <= 6
    ensures Quiet(line)
  {
    TextFirstCell(line);
    QuietWhen(line);
  }

  lemma {:induction false} JoinCount(cells: seq<string>)
    requires |cells| >= 1 && forall i :: 0 <= i < |cells| ==> '|' !in cells[i]
    ensures Count(Join(cells, " | "), '|') == |cells| - 1
    decreases |cells|
  {
    CountNone(cells[0], '|');
    if |cells| > 1 {
      JoinCount(cells[1..]);
      var rest := Join(cells[1..], " | ");
      CountAppend(cells[0] + " | ", rest, '|');
      CountAppend(cells[0], " | ", '|');
      assert " | "[1..] == "| " && "| "[1..] == " " && " "[1..] == "";
      assert Count(" | ", '|') == 1;
      assert Join(cells, " | ") == cells[0] + " | " + rest;
    }
  }

  /** A row with fewer cells than the summary table, none of them holding a bar, is quiet. */
  lemma {:induction false} QuietRow(cells: seq<string>)
    requires 1 <= |cells| <= 7 && forall i :: 0 <= i < |cells| ==> '|' !in cells[i] && '\n' !in cells[i]
    requires cells[0] != "" && !IsWhite(cells[0][0]) && cells[0][0] != 'P'
    ensures Quiet(TableRow(cells)) && '\n' !in TableRow(cells)
  {
    var line := TableRow(cells);
    RowWidth(cells);
    JoinStarts(cells);
    RowFirstCell(line);
    NotPlanCell(Cells(line)[0]);
    JoinPlain(cells, " | ", '\n');
  }

  lemma {:induction false} NotPlanCell(cell: string)
    requires cell == "" || cell[0] != 'P'
    ensures cell != "Plan"
  {
    assert "Plan"[0] == 'P';
  }

  lemma {:induction false} RowWidth(cells: seq<string>)
    requires |cells| >= 1 && forall i :: 0 <= i < |cells| ==> '|' !in cells[i]
    ensures |Cells(TableRow(cells))| == |cells|
  {
    var j := Join(cells, " | ");
    var inner := " " + j + " ";
    RowInner(TableRow(cells), inner);
    SplitCount(inner, '|');
    JoinCount(cells);
    CountAppend(" " + j, " ", '|');
    CountAppend(" ", j, '|');
    CountNone(" ", '|');
  }

  lemma {:induction false} JoinStarts(cells: seq<string>)
    requires |cells| >= 1 && cells[0] != "" && '|' !in cells[0]
    ensures var line := TableRow(cells);
            |line| >= 3 && line[0] == '|' && line[1] == ' ' && line[2] == cells[0][0] && line[2] != '|'
  {
    assert Join(cells, " | ")[0] == cells[0][0];
    assert cells[0][0] in cells[0];
  }
}
