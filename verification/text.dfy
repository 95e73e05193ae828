/** Strings: joining, splitting, trimming and decimal numerals. */
module Text {
  import opened Options

  function Join(parts: seq<string>, sep: string): string {
    if |parts| == 0 then "" else if |parts| == 1 then parts[0] else parts[0] + sep + Join(parts[1..], sep)
  }

  /** str.split with a one-character separator. */
  function Split(s: string, sep: char): (parts: seq<string>)
    ensures |parts| >= 1
  {
    if s == "" then [""] else PutFirst(s[0], sep, Split(s[1..], sep))
  }

  /** The parts once a character precedes them: a separator begins a part, another extends the first. */
  function PutFirst(c: char, sep: char, parts: seq<string>): (r: seq<string>)
    requires |parts| >= 1
    ensures |r| >= 1
  {
    if c == sep then [""] + parts else [[c] + parts[0]] + parts[1..]
  }

  lemma {:induction false} PutFirstAppend(c: char, sep: char, p: seq<string>, q: seq<string>)
    requires |p| >= 1
    ensures PutFirst(c, sep, p + q) == PutFirst(c, sep, p) + q
  {
    assert (p + q)[0] == p[0] && (p + q)[1..] == p[1..] + q;
  }

  lemma {:induction false} SplitAppend(a: string, sep: char, b: string)
    ensures Split(a + [sep] + b, sep) == Split(a, sep) + Split(b, sep)
    decreases |a|
  {
    var s := a + [sep] + b;
    if a == "" {
      assert s[1..] == b;
    } else {
      assert s[0] == a[0] && s[1..] == a[1..] + [sep] + b;
      SplitAppend(a[1..], sep, b);
      PutFirstAppend(a[0], sep, Split(a[1..], sep), Split(b, sep));
    }
  }

  lemma {:induction false} SplitWhole(a: string, sep: char)
    requires sep !in a
    ensures Split(a, sep) == [a]
    decreases |a|
  {
    if a != "" {
      assert a[0] in a && forall c :: c in a[1..] ==> c in a;
      SplitWhole(a[1..], sep);
      assert a == [a[0]] + a[1..];
    }
  }

  function Count(s: string, c: char): nat {
    if s == "" then 0 else (if s[0] == c then 1 else 0) + Count(s[1..], c)
  }

  lemma {:induction false} SplitCount(s: string, sep: char)
    ensures |Split(s, sep)| == Count(s, sep) + 1
    decreases |s|
  {
    if s != "" { SplitCount(s[1..], sep); }
  }

  lemma {:induction false} CountAppend(a: string, b: string, c: char)
    ensures Count(a + b, c) == Count(a, c) + Count(b, c)
    decreases |a|
  {
    if a == "" {
      assert a + b == b;
    } else {
      assert (a + b)[1..] == a[1..] + b;
      CountAppend(a[1..], b, c);
    }
  }

  lemma {:induction false} CountNone(s: string, c: char)
    requires c !in s
    ensures Count(s, c) == 0
    decreases |s|
  {
    if s != "" {
      assert s[0] in s && forall d :: d in s[1..] ==> d in s;
      CountNone(s[1..], c);
    }
  }

  lemma {:induction false} JoinPlain(parts: seq<string>, sep: string, c: char)
    requires c !in sep && forall i :: 0 <= i < |parts| ==> c !in parts[i]
    ensures c !in Join(parts, sep)
    decreases |parts|
  {
    if |parts| > 1 { JoinPlain(parts[1..], sep, c); }
  }

  /** Splitting what was joined line by line splits each element. */
  function Flat(ls: seq<string>, sep: char): seq<string> {
    if |ls| == 0 then [] else Split(ls[0], sep) + Flat(ls[1..], sep)
  }

  lemma {:induction false} SplitJoin(ls: seq<string>, sep: char)
    requires |ls| >= 1
    ensures Split(Join(ls, [sep]), sep) == Flat(ls, sep)
    decreases |ls|
  {
    if |ls| == 1 {
      assert Flat(ls[1..], sep) == [];
    } else {
      SplitAppend(ls[0], sep, Join(ls[1..], [sep]));
      SplitJoin(ls[1..], sep);
    }
  }

  lemma {:induction false} FlatAppend(a: seq<string>, b: seq<string>, sep: char)
    ensures Flat(a + b, sep) == Flat(a, sep) + Flat(b, sep)
    decreases |a|
  {
    if |a| == 0 {
      assert a + b == b;
    } else {
      assert (a + b)[1..] == a[1..] + b;
      FlatAppend(a[1..], b, sep);
    }
  }

  lemma {:induction false} FlatPlain(ls: seq<string>, sep: char)
    requires forall i :: 0 <= i < |ls| ==> sep !in ls[i]
    ensures Flat(ls, sep) == ls
    decreases |ls|
  {
    if |ls| > 0 {
      SplitWhole(ls[0], sep);
      FlatPlain(ls[1..], sep);
      assert ls == [ls[0]] + ls[1..];
    }
  }

  // ---------- Trimming ----------

  /** What strip() removes: white space, or the characters of its argument. */
  datatype Charset = White | Bar | Tick

  /** str.isspace. */
  predicate IsWhite(c: char) {
    || '\t' <= c <= '\r' || '\U{1C}' <= c <= ' ' || c in {'\U{85}', '\U{A0}', '\U{1680}'}
    || '\U{2000}' <= c <= '\U{200A}'
    || c in {'\U{2028}', '\U{2029}', '\U{202F}', '\U{205F}', '\U{3000}'}
  }

  predicate Drops(k: Charset, c: char) {
    match k
    case White => IsWhite(c)
    case Bar => c == '|'
    case Tick => c == '`'
  }

  function TrimLeft(s: string, k: Charset): (t: string)
    ensures |t| <= |s| && t == s[|s| - |t|..]
    ensures t != "" ==> !Drops(k, t[0])
  {
    if s != "" && Drops(k, s[0]) then TrimLeft(s[1..], k) else s
  }

  function TrimRight(s: string, k: Charset): (t: string)
    ensures t <= s
    ensures t != "" ==> !Drops(k, t[|t| - 1])
  {
    if s != "" && Drops(k, s[|s| - 1]) then TrimRight(s[..|s| - 1], k) else s
  }

  function Trim(s: string, k: Charset): string {
    TrimRight(TrimLeft(s, k), k)
  }

  /** Nothing to trim at either end. */
  predicate Tight(s: string, k: Charset) {
    s != "" && !Drops(k, s[0]) && !Drops(k, s[|s| - 1])
  }

  lemma {:induction false} TrimTight(s: string, k: Charset)
    requires Tight(s, k)
    ensures Trim(s, k) == s
  {
  }

  lemma {:induction false} TrimPadded(c: char, s: string, d: char, k: Charset)
    requires Tight(s, k) && Drops(k, c) && Drops(k, d)
    ensures Trim([c] + s + [d], k) == s
  {
    assert [c] + s + [d] == [c] + (s + [d]);
    TrimLeftOne(c, s + [d], k);
    TrimRightOne(s, d, k);
  }

  lemma {:induction false} TrimLeftOne(c: char, t: string, k: Charset)
    requires Drops(k, c) && t != "" && !Drops(k, t[0])
    ensures TrimLeft([c] + t, k) == t
  {
    assert ([c] + t)[1..] == t;
  }

  lemma {:induction false} TrimRightOne(s: string, d: char, k: Charset)
    requires Drops(k, d) && s != "" && !Drops(k, s[|s| - 1])
    ensures TrimRight(s + [d], k) == s
  {
    assert (s + [d])[..|s|] == s;
  }

  /** Trimming keeps a first character that need not go. */
  lemma {:induction false} TrimKeepsFirst(s: string, k: Charset)
    requires s != "" && !Drops(k, s[0])
    ensures Trim(s, k) != "" && Trim(s, k)[0] == s[0]
  {
    TrimRightKeeps(s, k);
  }

  lemma {:induction false} TrimRightKeeps(s: string, k: Charset)
    requires s != "" && !Drops(k, s[0])
    ensures TrimRight(s, k) != "" && TrimRight(s, k)[0] == s[0]
    decreases |s|
  {
    if Drops(k, s[|s| - 1]) {
      assert |s| > 1;
      TrimRightKeeps(s[..|s| - 1], k);
    }
  }

  /** Trimming keeps a prefix whose ends need not go. */
  lemma {:induction false} TrimKeepsPrefix(s: string, k: Charset, n: nat)
    requires 0 < n <= |s| && !Drops(k, s[0]) && !Drops(k, s[n - 1])
    ensures s[..n] <= Trim(s, k)
  {
    TrimRightPrefix(s, k, n);
  }

  lemma {:induction false} TrimRightPrefix(s: string, k: Charset, n: nat)
    requires 0 < n <= |s| && !Drops(k, s[n - 1])
    ensures s[..n] <= TrimRight(s, k)
    decreases |s|
  {
    if Drops(k, s[|s| - 1]) {
      assert n < |s|;
      TrimRightPrefix(s[..|s| - 1], k, n);
      assert s[..|s| - 1][..n] == s[..n];
    }
  }

  lemma {:induction false} SuffixCount(s: string, t: string, c: char)
    requires |t| <= |s| && t == s[|s| - |t|..]
    ensures Count(t, c) <= Count(s, c)
  {
    var before := s[..|s| - |t|];
    assert s == before + t;
    CountAppend(before, t, c);
  }

  lemma {:induction false} PrefixCount(s: string, t: string, c: char)
    requires t <= s
    ensures Count(t, c) <= Count(s, c)
  {
    var after := s[|t|..];
    assert s == t + after;
    CountAppend(t, after, c);
  }

  lemma {:induction false} TrimCount(s: string, k: Charset, c: char)
    ensures Count(Trim(s, k), c) <= Count(s, c)
  {
    var l := TrimLeft(s, k);
    SuffixCount(s, l, c);
    PrefixCount(l, TrimRight(l, k), c);
  }

  /** Drops trailing slashes. */
  function TrimSlash(s: string): (t: string)
    ensures t <= s
    ensures t != "" ==> t[|t| - 1] != '/'
    ensures forall i :: |t| <= i < |s| ==> s[i] == '/'
  {
    if s != "" && s[|s| - 1] == '/' then TrimSlash(s[..|s| - 1]) else s
  }

  // ---------- Searching ----------

  predicate Contains(s: string, sub: string) {
    exists i :: 0 <= i <= |s| && sub <= s[i..]
  }

  /** The first position of pat in s, or -1. */
  function Index(s: string, pat: string): (i: int)
    ensures -1 <= i <= |s|
    ensures i >= 0 ==> pat <= s[i..]
    ensures forall j :: 0 <= j <= |s| && (j < i || i < 0) ==> !(pat <= s[j..])
  {
    if pat <= s then 0
    else if s == "" then -1
    else
      var i := Index(s[1..], pat);
      assert forall j :: 1 <= j <= |s| ==> s[j..] == s[1..][j - 1..];
      if i < 0 then -1 else i + 1
  }

  /** str.replace of one character. */
  function Replace(s: string, c: char, text: string): string {
    if s == "" then "" else (if s[0] == c then text else [s[0]]) + Replace(s[1..], c, text)
  }

  lemma {:induction false} ReplaceAppend(a: string, b: string, c: char, text: string)
    ensures Replace(a + b, c, text) == Replace(a, c, text) + Replace(b, c, text)
    decreases |a|
  {
    if a == "" {
      assert a + b == b;
    } else {
      assert (a + b)[0] == a[0] && (a + b)[1..] == a[1..] + b;
      ReplaceAppend(a[1..], b, c, text);
    }
  }

  lemma {:induction false} ReplaceAbsent(s: string, c: char, text: string)
    requires c !in s
    ensures Replace(s, c, text) == s
    decreases |s|
  {
    if s != "" {
      assert s[0] in s && forall x :: x in s[1..] ==> x in s;
      ReplaceAbsent(s[1..], c, text);
      assert s == [s[0]] + s[1..];
    }
  }

  lemma {:induction false} ReplaceOne(c: char, text: string)
    ensures Replace([c], c, text) == text
  {
    assert [c][1..] == "";
  }

  lemma {:induction false} ReplaceLacks(s: string, c: char, text: string, d: char)
    requires d !in text && (d == c || d !in s)
    ensures d !in Replace(s, c, text)
    decreases |s|
  {
    if s != "" {
      assert s[0] in s && forall x :: x in s[1..] ==> x in s;
      ReplaceLacks(s[1..], c, text, d);
    }
  }

  function LowerChar(c: char): char {
    if 'A' <= c <= 'Z' then (c as int + 32) as char else c
  }

  /** str.lower, on the letters that occur here. */
  function Lower(s: string): string {
    seq(|s|, i requires 0 <= i < |s| => LowerChar(s[i]))
  }

  // ---------- Decimal numerals ----------

  function DigitChar(d: nat): char
    requires d < 10
  {
    '0' + d as char
  }

  predicate IsDigit(c: char) {
    '0' <= c <= '9'
  }

  function NatText(n: nat): (s: string)
    ensures s != "" && forall i :: 0 <= i < |s| ==> IsDigit(s[i])
  {
    if n < 10 then [DigitChar(n)] else NatText(n / 10) + [DigitChar(n % 10)]
  }

  function DigitsValue(s: string): Option<nat> {
    if s == "" then Some(0)
    else if !IsDigit(s[|s| - 1]) then None
    else
      match DigitsValue(s[..|s| - 1])
      case None => None
      case Some(v) => Some(10 * v + (s[|s| - 1] as int - '0' as int))
  }

  /** int() on an optionally signed run of ASCII digits; None where it raises. */
  function ParseInt(s: string): Option<int> {
    if s == "" then None
    else if s[0] in {'-', '+'} then
      if |s| == 1 then None
      else
        match DigitsValue(s[1..])
        case None => None
        case Some(v) => var n: int := v; Some(if s[0] == '-' then -n else n)
    else
      match DigitsValue(s)
      case None => None
      case Some(v) => Some(v)
  }

  lemma {:induction false} DigitsNatText(n: nat)
    ensures DigitsValue(NatText(n)) == Some(n)
    decreases n
  {
    var s := NatText(n);
    if n < 10 {
      assert s[..0] == "";
    } else {
      DigitsNatText(n / 10);
      assert s[..|s| - 1] == NatText(n / 10);
    }
  }

  /** Numerals are read as what they were printed from, with their sign if they have one. */
  lemma {:induction false} ParseNatText(n: nat)
    ensures ParseInt(NatText(n)) == Some(n)
    ensures ParseInt("-" + NatText(n)) == Some(-(n as int)) && ParseInt("+" + NatText(n)) == Some(n)
  {
    DigitsNatText(n);
    assert IsDigit(NatText(n)[0]);
    assert ("-" + NatText(n))[1..] == NatText(n) && ("+" + NatText(n))[1..] == NatText(n);
  }
}
