/**
  The escaping of the review table's cells: six replacements in a row, each character of the
  text replaced once, and nothing lost but line breaks.
 */
module ConformanceEscaping {
  import opened Text
  import opened ConformancePage

  /** What each character is written as; line breaks become spaces. */
  function EscapedChar(c: char): string {
    if c == '&' then "&amp;" else if c == '<' then "&lt;" else if c == '>' then "&gt;" else if c == '|' then "&#124;"
    else if c == '\n' || c == '\r' then " " else [c]
  }

  function Escaped(s: string): string {
    if s == "" then "" else EscapedChar(s[0]) + Escaped(s[1..])
  }

  lemma {:induction false} SafeCellAppend(a: string, b: string)
    ensures SafeCell(a + b) == SafeCell(a) + SafeCell(b)
  {
    var a1, b1 := Replace(a, '&', "&amp;"), Replace(b, '&', "&amp;");
    ReplaceAppend(a, b, '&', "&amp;");
    var a2, b2 := Replace(a1, '<', "&lt;"), Replace(b1, '<', "&lt;");
    ReplaceAppend(a1, b1, '<', "&lt;");
    var a3, b3 := Replace(a2, '>', "&gt;"), Replace(b2, '>', "&gt;");
    ReplaceAppend(a2, b2, '>', "&gt;");
    var a4, b4 := Replace(a3, '|', "&#124;"), Replace(b3, '|', "&#124;");
    ReplaceAppend(a3, b3, '|', "&#124;");
    var a5, b5 := Replace(a4, '\n', " "), Replace(b4, '\n', " ");
    ReplaceAppend(a4, b4, '\n', " ");
    ReplaceAppend(a5, b5, '\r', " ");
  }

  /** What one character has become after each of the replacements. */
  function AfterAmp(c: char): string { if c == '&' then "&amp;" else [c] }
  function AfterLess(c: char): string { if c == '<' then "&lt;" else AfterAmp(c) }
  function AfterGreater(c: char): string { if c == '>' then "&gt;" else AfterLess(c) }
  function AfterBar(c: char): string { if c == '|' then "&#124;" else AfterGreater(c) }
  function AfterLine(c: char): string { if c == '\n' then " " else AfterBar(c) }

  lemma {:induction false} Replaced(s: string, d: char, text: string, t: string)
    requires if s == [d] then t == text else d !in s && t == s
    ensures Replace(s, d, text) == t
  {
    if s == [d] { ReplaceOne(d, text); } else { ReplaceAbsent(s, d, text); }
  }

  /** The entities hold none of the characters replaced after them. */
  lemma {:induction false} EntitiesLack(d: char)
    requires d in {'<', '>', '|', '\n', '\r'}
    ensures d !in "&amp;" && d !in "&lt;" && d !in "&gt;" && d !in "&#124;" && d !in " "
  {
  }

  lemma {:induction false} SafeCellChain(s: string, a: string, b: string, c: string, d: string, e: string)
    requires Replace(s, '&', "&amp;") == a && Replace(a, '<', "&lt;") == b && Replace(b, '>', "&gt;") == c
    requires Replace(c, '|', "&#124;") == d && Replace(d, '\n', " ") == e
    ensures SafeCell(s) == Replace(e, '\r', " ")
  {
  }

  lemma {:induction false} SafeCellChar(c: char)
    ensures SafeCell([c]) == EscapedChar(c)
  {
    assert Replace([c], '&', "&amp;") == AfterAmp(c) by { Replaced([c], '&', "&amp;", AfterAmp(c)); }
    assert Replace(AfterAmp(c), '<', "&lt;") == AfterLess(c) by {
      EntitiesLack('<');
      Replaced(AfterAmp(c), '<', "&lt;", AfterLess(c));
    }
    assert Replace(AfterLess(c), '>', "&gt;") == AfterGreater(c) by {
      EntitiesLack('>');
      Replaced(AfterLess(c), '>', "&gt;", AfterGreater(c));
    }
    assert Replace(AfterGreater(c), '|', "&#124;") == AfterBar(c) by {
      EntitiesLack('|');
      Replaced(AfterGreater(c), '|', "&#124;", AfterBar(c));
    }
    assert Replace(AfterBar(c), '\n', " ") == AfterLine(c) by {
      EntitiesLack('\n');
      Replaced(AfterBar(c), '\n', " ", AfterLine(c));
    }
    assert Replace(AfterLine(c), '\r', " ") == EscapedChar(c) by {
      EntitiesLack('\r');
      Replaced(AfterLine(c), '\r', " ", EscapedChar(c));
    }
    SafeCellChain([c], AfterAmp(c), AfterLess(c), AfterGreater(c), AfterBar(c), AfterLine(c));
  }

  /** The chain of replacements escapes each character once: none escapes what another has put in. */
  lemma {:induction false} SafeCellEscapes(s: string)
    ensures SafeCell(s) == Escaped(s)
    decreases |s|
  {
    if s == "" { return; }
    assert s == [s[0]] + s[1..];
    SafeCellAppend([s[0]], s[1..]);
    SafeCellChar(s[0]);
    SafeCellEscapes(s[1..]);
  }

  /** A cell's text with the entities resolved. */
  function Shown(s: string): string
    decreases |s|
  {
    if s == "" then ""
    else if "&amp;" <= s then "&" + Shown(s[5..])
    else if "&lt;" <= s then "<" + Shown(s[4..])
    else if "&gt;" <= s then ">" + Shown(s[4..])
    else if "&#124;" <= s then "|" + Shown(s[6..])
    else [s[0]] + Shown(s[1..])
  }

  function OnOneLine(s: string): string {
    if s == "" then "" else [if s[0] == '\n' || s[0] == '\r' then ' ' else s[0]] + OnOneLine(s[1..])
  }

  lemma {:induction false} ShownFirst(c: char, rest: string)
    ensures Shown(EscapedChar(c) + rest) == OnOneLine([c]) + Shown(rest)
  {
    var e := EscapedChar(c);
    var s := e + rest;
    assert s[|e|..] == rest && [c][1..] == "" && s[0] == e[0];
    if c == '&' {
      assert s[..5] == "&amp;";
    } else if c == '<' {
      assert s[..4] == "&lt;" && s[1] == 'l';
    } else if c == '>' {
      assert s[..4] == "&gt;" && s[1] == 'g';
    } else if c == '|' {
      assert s[..6] == "&#124;" && s[1] == '#';
    }
  }

  /** The escaping loses nothing but line breaks: what a reader is shown is the text on one line. */
  lemma {:induction false} SafeCellShows(s: string)
    ensures Shown(SafeCell(s)) == OnOneLine(s)
    decreases |s|
  {
    SafeCellEscapes(s);
    if s != "" {
      SafeCellEscapes(s[1..]);
      SafeCellShows(s[1..]);
      ShownFirst(s[0], Escaped(s[1..]));
      assert [s[0]][1..] == "";
    }
  }
}
