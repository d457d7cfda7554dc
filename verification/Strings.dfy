/** The string operations of Go's `strings` package that the modelled code calls. A
    `char` stands for one rune. */
module Strings {

  /** The runes `unicode.IsSpace` accepts. */
  const SPACES: set<char> := {
    '\t', '\n', '\U{0b}', '\U{0c}', '\r', ' ', '\U{85}', '\U{a0}', '\U{1680}', '\U{2000}', '\U{2001}', '\U{2002}',
    '\U{2003}', '\U{2004}', '\U{2005}', '\U{2006}', '\U{2007}', '\U{2008}', '\U{2009}', '\U{200a}', '\U{2028}',
    '\U{2029}', '\U{202f}', '\U{205f}', '\U{3000}'}

  const BLANKS: set<char> := {' ', '\t'}

  /** `strings.TrimRight`: the longest suffix of runes in `cut` is dropped. */
  function TrimRight(s: string, cut: set<char>): (t: string)
    ensures t <= s
    ensures t == [] || t[|t| - 1] !in cut
  {
    if s != [] && s[|s| - 1] in cut then TrimRight(s[..|s| - 1], cut) else s
  }

  /** `strings.TrimLeft`. */
  function TrimLeft(s: string, cut: set<char>): (t: string)
    ensures |t| <= |s|
    ensures t == [] || t[0] !in cut
  {
    if s != [] && s[0] in cut then TrimLeft(s[1..], cut) else s
  }

  function TrimBoth(s: string, cut: set<char>): string { TrimRight(TrimLeft(s, cut), cut) }

  /** `strings.TrimSpace`. */
  function TrimSpace(s: string): string { TrimBoth(s, SPACES) }

  /** Nothing to trim on either side. */
  predicate Trimmed(s: string) { s == [] || (s[0] !in SPACES && s[|s| - 1] !in SPACES) }

  lemma TrimRightKeeps(s: string, cut: set<char>)
    requires s == [] || s[|s| - 1] !in cut
    ensures TrimRight(s, cut) == s
  {
  }

  lemma TrimSpaceTrims(s: string)
    ensures Trimmed(TrimSpace(s))
    ensures Trimmed(s) ==> TrimSpace(s) == s
  {
  }

  /** A text that begins with a rune to keep only loses runes at its end. */
  lemma TrimSpaceIsPrefix(s: string)
    requires s != [] && s[0] !in SPACES
    ensures TrimSpace(s) <= s && TrimSpace(s) != []
  {
    assert TrimLeft(s, SPACES) == s;
    TrimRightDrops(s, SPACES);
  }

  lemma TrimLeftSkips(s: string)
    ensures TrimSpace([' '] + s) == TrimSpace(s)
  {
    assert ([' '] + s)[1..] == s;
  }

  /** How many runes `TrimLeft` drops. */
  function Lead(s: string, cut: set<char>): (n: nat)
    ensures n <= |s|
    ensures n < |s| ==> s[n] !in cut
    ensures forall i :: 0 <= i < n ==> s[i] in cut
  {
    if s != [] && s[0] in cut then 1 + Lead(s[1..], cut) else 0
  }

  lemma {:induction false} LeadTrims(s: string, cut: set<char>)
    ensures TrimLeft(s, cut) == s[Lead(s, cut)..]
  {
    if s != [] && s[0] in cut { LeadTrims(s[1..], cut); }
  }

  lemma {:induction false} TrimRightDrops(s: string, cut: set<char>)
    ensures forall i :: |TrimRight(s, cut)| <= i < |s| ==> s[i] in cut
  {
    if s != [] && s[|s| - 1] in cut {
      var t := s[..|s| - 1];
      TrimRightDrops(t, cut);
      assert forall i :: 0 <= i < |t| ==> t[i] == s[i];
    }
  }

  lemma LeadSnoc(s: string, c: char, cut: set<char>)
    requires c in cut
    ensures Lead(s + [c], cut) == if Lead(s, cut) == |s| then |s| + 1 else Lead(s, cut)
  {
    var t := s + [c];
    assert forall i :: 0 <= i < |s| ==> t[i] == s[i];
  }

  lemma TrimLeftSnoc(s: string, c: char, cut: set<char>)
    requires c in cut
    ensures TrimLeft(s + [c], cut) == if TrimLeft(s, cut) == [] then [] else TrimLeft(s, cut) + [c]
  {
    var n := Lead(s, cut);
    LeadTrims(s, cut);
    LeadTrims(s + [c], cut);
    LeadSnoc(s, c, cut);
    if n < |s| { assert (s + [c])[n..] == s[n..] + [c]; }
  }

  lemma TrimRightSnoc(s: string, c: char, cut: set<char>)
    requires c in cut
    ensures TrimRight(s + [c], cut) == TrimRight(s, cut)
  {
    assert (s + [c])[..|s|] == s;
  }

  lemma TrimBothSnoc(s: string, c: char, cut: set<char>)
    requires c in cut
    ensures TrimBoth(s + [c], cut) == TrimBoth(s, cut)
  {
    TrimLeftSnoc(s, c, cut);
    TrimRightSnoc(TrimLeft(s, cut), c, cut);
  }

  lemma {:induction false} TrimBothPrefix(s: string, n: nat, cut: set<char>)
    requires n <= |s| && forall i :: n <= i < |s| ==> s[i] in cut
    ensures TrimBoth(s[..n], cut) == TrimBoth(s, cut)
    decreases |s| - n
  {
    if n < |s| {
      TrimBothPrefix(s, n + 1, cut);
      TrimBothSnoc(s[..n], s[n], cut);
      assert s[..n] + [s[n]] == s[..n + 1];
    } else {
      assert s[..n] == s;
    }
  }

  /** Trimming fewer runes at the end first changes nothing. */
  lemma TrimBothAfter(s: string, few: set<char>, cut: set<char>)
    requires few <= cut
    ensures TrimBoth(TrimRight(s, few), cut) == TrimBoth(s, cut)
  {
    var t := TrimRight(s, few);
    TrimRightDrops(s, few);
    TrimBothPrefix(s, |t|, cut);
    assert s[..|t|] == t;
  }

  // ---- Lines ----------------------------------------------------------------------

  predicate OneLine(s: string) { '\n' !in s }

  /** `strings.Join(lines, "\n")`. */
  function JoinLines(lines: seq<string>): string {
    if lines == [] then []
    else if |lines| == 1 then lines[0]
    else lines[0] + ['\n'] + JoinLines(lines[1..])
  }

  /** The length of the first line of a text. */
  function LineEnd(s: string): (n: nat)
    ensures n <= |s| && '\n' !in s[..n] && (n < |s| ==> s[n] == '\n')
  {
    if s == [] || s[0] == '\n' then 0 else 1 + LineEnd(s[1..])
  }

  /** `strings.Split(s, "\n")`: a text without a newline is one line. */
  function SplitLines(s: string): (lines: seq<string>)
    ensures lines != []
    decreases |s|
  {
    var n := LineEnd(s);
    if n == |s| then [s] else [s[..n]] + SplitLines(s[n + 1..])
  }

  lemma {:induction false} LineEnds(line: string, rest: string)
    requires OneLine(line)
    ensures LineEnd(line) == |line| && LineEnd(line + ['\n'] + rest) == |line|
  {
    if line != [] {
      LineEnds(line[1..], rest);
      assert (line + ['\n'] + rest)[1..] == line[1..] + ['\n'] + rest;
    }
  }

  lemma SplitFirst(line: string, rest: string)
    requires OneLine(line)
    ensures SplitLines(line) == [line]
    ensures SplitLines(line + ['\n'] + rest) == [line] + SplitLines(rest)
  {
    var s := line + ['\n'] + rest;
    LineEnds(line, rest);
    assert s[..|line|] == line && s[|line| + 1..] == rest;
  }

  /** Joining and splitting are inverse on lines that are lines. */
  lemma {:induction false} SplitJoin(lines: seq<string>)
    requires lines != [] && forall l :: l in lines ==> OneLine(l)
    ensures SplitLines(JoinLines(lines)) == lines
  {
    var l := lines[0];
    assert l in lines;
    if |lines| == 1 {
      SplitFirst(l, []);
    } else {
      SplitJoin(lines[1..]);
      SplitFirst(l, JoinLines(lines[1..]));
    }
  }

  // ---- Numbers --------------------------------------------------------------------

  function Digit(n: nat): char
    requires n < 10
  {
    ('0' as int + n) as char
  }

  /** `fmt` of a number with `%d`. */
  function Decimal(n: nat): (s: string)
    ensures s != []
  {
    if n < 10 then [Digit(n)] else Decimal(n / 10) + [Digit(n % 10)]
  }

  /** The number a text of digits stands for. */
  function Number(s: string): int {
    if s == [] then 0 else 10 * Number(s[..|s| - 1]) + (s[|s| - 1] as int - '0' as int)
  }

  lemma {:induction false} DecimalIsRead(n: nat)
    ensures Number(Decimal(n)) == n
  {
    if n >= 10 {
      var s := Decimal(n);
      DecimalIsRead(n / 10);
      assert s[..|s| - 1] == Decimal(n / 10);
    } else {
      assert Decimal(n)[..0] == [];
    }
  }

  // ---- The order of texts -----------------------------------------------------------

  /** `<` of Go's strings. */
  predicate TextLess(a: string, b: string) {
    b != [] && (a == [] || a[0] < b[0] || (a[0] == b[0] && TextLess(a[1..], b[1..])))
  }

  /** The texts are alike up to a place at which the first one ends or has the smaller rune. */
  ghost predicate ComesFirst(a: string, b: string, k: nat) {
    k <= |a| && k < |b| && a[..k] == b[..k] && (k == |a| || a[k] < b[k])
  }

  lemma {:induction false} TextLessMeans(a: string, b: string)
    ensures TextLess(a, b) <==> exists k: nat :: ComesFirst(a, b, k)
  {
    if b != [] && a != [] && a[0] == b[0] {
      TextLessMeans(a[1..], b[1..]);
      if TextLess(a, b) {
        var k: nat :| ComesFirst(a[1..], b[1..], k);
        assert a[..k + 1] == [a[0]] + a[1..][..k] && b[..k + 1] == [b[0]] + b[1..][..k];
        assert ComesFirst(a, b, k + 1);
      }
      if k: nat :| ComesFirst(a, b, k) {
        assert a[1..][..k - 1] == a[..k][1..] && b[1..][..k - 1] == b[..k][1..];
        assert ComesFirst(a[1..], b[1..], k - 1);
      }
    } else if TextLess(a, b) {
      assert ComesFirst(a, b, 0);
    }
  }

  lemma {:induction false} TextLessOneWay(a: string, b: string)
    requires TextLess(a, b)
    ensures !TextLess(b, a)
  {
    if a != [] && a[0] == b[0] { TextLessOneWay(a[1..], b[1..]); }
  }

  lemma {:induction false} TextLessOn(a: string, b: string, c: string)
    requires TextLess(a, b) && TextLess(b, c)
    ensures TextLess(a, c)
  {
    if a != [] && a[0] == b[0] == c[0] { TextLessOn(a[1..], b[1..], c[1..]); }
  }

  lemma {:induction false} TextsCompare(a: string, b: string)
    ensures a == b || TextLess(a, b) || TextLess(b, a)
  {
    if a != [] && b != [] && a[0] == b[0] {
      TextsCompare(a[1..], b[1..]);
      assert a == [a[0]] + a[1..] && b == [b[0]] + b[1..];
    }
  }
}
