/** A command's arguments: the splitting automaton and the substitution of
    `commands/expand.go`, and the quoting printer and the scanner of `cli/mcp.go` that
    have to agree with them. */
module CommandArguments {
  import opened Strings

  // ---- Splitting ------------------------------------------------------------------

  datatype Quote = Bare | Single | Double

  /** What `splitArguments` remembers between two runes, apart from the finished words. */
  datatype Scan = Scan(current: string, quote: Quote, escaped: bool)

  const START := Scan("", Bare, false)

  predicate IsBlank(c: char) { c == ' ' || c == '\t' || c == '\n' }

  predicate IsQuoting(c: char) { c == '\'' || c == '"' || c == '\\' }

  predicate Clean(s: Scan) { s.quote.Bare? && !s.escaped }

  function Advance(s: Scan, c: char): Scan {
    if s.escaped then s.(current := s.current + [c], escaped := false)
    else if c == '\\' && !s.quote.Single? then s.(escaped := true)
    else if !s.quote.Bare? then
      if (s.quote.Single? && c == '\'') || (s.quote.Double? && c == '"') then s.(quote := Bare)
      else s.(current := s.current + [c])
    else if c == '\'' then s.(quote := Single)
    else if c == '"' then s.(quote := Double)
    else s.(current := s.current + [c])
  }

  function Flushed(current: string): seq<string> { if current == "" then [] else [current] }

  /** The words that the rest of the text still produces. */
  function Words(s: Scan, text: string): seq<string>
    decreases text
  {
    if text == [] then Flushed(s.current)
    else if Clean(s) && IsBlank(text[0]) then Flushed(s.current) + Words(START, text[1..])
    else Words(Advance(s, text[0]), text[1..])
  }

  function Split(args: string): seq<string> { Words(START, args) }

  /** `splitArguments`. */
  method SplitArguments(args: string) returns (out: seq<string>)
    ensures out == Split(args)
  {
    out := [];
    var current, quote, escaped := "", Bare, false;
    for i := 0 to |args|
      invariant out + Words(Scan(current, quote, escaped), args[i..]) == Split(args)
    {
      var r := args[i];
      assert args[i..] == [r] + args[i + 1..];
      if escaped {
        current, escaped := current + [r], false;
      } else if r == '\\' && !quote.Single? {
        escaped := true;
      } else if !quote.Bare? {
        if (quote.Single? && r == '\'') || (quote.Double? && r == '"') {
          quote := Bare;
        } else {
          current := current + [r];
        }
      } else if r == '\'' || r == '"' {
        quote := if r == '\'' then Single else Double;
      } else if IsBlank(r) {
        if current != "" {
          out := out + [current];
          current := "";
        }
      } else {
        current := current + [r];
      }
    }
    if current != "" { out := out + [current]; }
  }

  // ---- What the words are ---------------------------------------------------------

  /** A rune between double quotes, as it is or behind a backslash. */
  datatype Inner = Just(c: char) | Slashed(c: char)

  /** A piece of an argument text: a rune as it is, behind a backslash, a blank, or a quoted
      text. At its end a quote may stay open and a backslash have nothing behind it. */
  datatype Piece =
    | Rune(c: char) | Behind(c: char) | Gap(c: char)
    | InSingle(text: string) | InDouble(inner: seq<Inner>)
    | OpenSingle(text: string) | OpenDouble(inner: seq<Inner>, dangling: bool) | Dangling

  function InnerText(inner: seq<Inner>): string {
    if inner == [] then []
    else (match inner[0] case Just(c) => [c] case Slashed(c) => ['\\', c]) + InnerText(inner[1..])
  }

  function PieceText(p: Piece): string {
    match p
    case Rune(c) => [c]
    case Behind(c) => ['\\', c]
    case Gap(c) => [c]
    case InSingle(text) => "'" + text + "'"
    case InDouble(inner) => "\"" + InnerText(inner) + "\""
    case OpenSingle(text) => "'" + text
    case OpenDouble(inner, dangling) => "\"" + InnerText(inner) + if dangling then "\\" else ""
    case Dangling => "\\"
  }

  predicate InnerOk(inner: seq<Inner>) { forall x :: x in inner && x.Just? ==> x.c != '"' && x.c != '\\' }

  predicate PieceOk(p: Piece) {
    match p
    case Rune(c) => c !in {' ', '\t', '\n', '\'', '"', '\\'}
    case Gap(c) => c in {' ', '\t', '\n'}
    case InSingle(text) => '\'' !in text
    case OpenSingle(text) => '\'' !in text
    case InDouble(inner) => InnerOk(inner)
    case OpenDouble(inner, _) => InnerOk(inner)
    case _ => true
  }

  /** What a piece is in its word: quotes and backslashes are left out. */
  function InnerMeans(inner: seq<Inner>): string {
    if inner == [] then [] else [inner[0].c] + InnerMeans(inner[1..])
  }

  function PieceMeans(p: Piece): string {
    match p
    case Rune(c) => [c]
    case Behind(c) => [c]
    case InSingle(text) => text
    case InDouble(inner) => InnerMeans(inner)
    case OpenSingle(text) => text
    case OpenDouble(inner, _) => InnerMeans(inner)
    case _ => ""
  }

  predicate IsOpen(p: Piece) { p.OpenSingle? || p.OpenDouble? || p.Dangling? }

  predicate PiecesOk(pieces: seq<Piece>) {
    && (forall i :: 0 <= i < |pieces| ==> PieceOk(pieces[i]))
    && (forall i :: 0 <= i < |pieces| - 1 ==> !IsOpen(pieces[i]))
  }

  function PiecesText(pieces: seq<Piece>): string {
    if pieces == [] then [] else PieceText(pieces[0]) + PiecesText(pieces[1..])
  }

  /** Words end at gaps, and one of which nothing is left is none. */
  function WordsOf(word: string, pieces: seq<Piece>): seq<string>
    decreases |pieces|
  {
    if pieces == [] then if word == "" then [] else [word]
    else if pieces[0].Gap? then (if word == "" then [] else [word]) + WordsOf("", pieces[1..])
    else WordsOf(word + PieceMeans(pieces[0]), pieces[1..])
  }

  /** A scan goes over text that changes neither its quote nor its word's end. */
  lemma {:induction false} SingleRuns(word: string, text: string, rest: string)
    requires '\'' !in text
    ensures Words(Scan(word, Single, false), text + rest) == Words(Scan(word + text, Single, false), rest)
    decreases |text|
  {
    if text == [] {
      assert text + rest == rest && word + text == word;
    } else {
      assert (text + rest)[1..] == text[1..] + rest;
      SingleRuns(word + [text[0]], text[1..], rest);
      assert word + [text[0]] + text[1..] == word + text;
    }
  }

  lemma SlashedRuns(word: string, quote: Quote, c: char, rest: string)
    requires !quote.Single?
    ensures Words(Scan(word, quote, false), ['\\', c] + rest) == Words(Scan(word + [c], quote, false), rest)
  {
    var text := ['\\', c] + rest;
    assert text[1..][0] == c && text[1..][1..] == rest;
  }

  lemma {:induction false} DoubleRuns(word: string, inner: seq<Inner>, rest: string)
    requires InnerOk(inner)
    ensures Words(Scan(word, Double, false), InnerText(inner) + rest)
         == Words(Scan(word + InnerMeans(inner), Double, false), rest)
    decreases |inner|
  {
    if inner == [] {
      assert InnerText(inner) + rest == rest && word + InnerMeans(inner) == word;
    } else {
      var x, more := inner[0], inner[1..];
      var text := InnerText(inner) + rest;
      assert x in inner && forall y :: y in more ==> y in inner;
      if x.Just? {
        assert text == [x.c] + (InnerText(more) + rest);
        assert text[1..] == InnerText(more) + rest;
      } else {
        assert text == ['\\', x.c] + (InnerText(more) + rest);
        SlashedRuns(word, Double, x.c, InnerText(more) + rest);
      }
      DoubleRuns(word + [x.c], more, rest);
      assert word + [x.c] + InnerMeans(more) == word + InnerMeans(inner);
    }
  }

  lemma SingleIsRead(word: string, t: string, rest: string)
    requires '\'' !in t
    ensures Words(Scan(word, Bare, false), "'" + t + "'" + rest) == Words(Scan(word + t, Bare, false), rest)
  {
    var text := "'" + t + "'" + rest;
    assert text[0] == '\'' && text[1..] == t + ("'" + rest);
    SingleRuns(word, t, "'" + rest);
    assert ("'" + rest)[1..] == rest;
  }

  lemma DoubleIsRead(word: string, inner: seq<Inner>, rest: string)
    requires InnerOk(inner)
    ensures Words(Scan(word, Bare, false), "\"" + InnerText(inner) + "\"" + rest)
         == Words(Scan(word + InnerMeans(inner), Bare, false), rest)
  {
    var text := "\"" + InnerText(inner) + "\"" + rest;
    assert text[0] == '"' && text[1..] == InnerText(inner) + ("\"" + rest);
    DoubleRuns(word, inner, "\"" + rest);
    assert ("\"" + rest)[1..] == rest;
  }

  /** One piece that is no gap adds what it means to the word. */
  lemma PieceRuns(word: string, p: Piece, rest: string)
    requires PieceOk(p) && !p.Gap? && !IsOpen(p)
    ensures Words(Scan(word, Bare, false), PieceText(p) + rest) == Words(Scan(word + PieceMeans(p), Bare, false), rest)
  {
    match p {
      case Rune(c) => assert ([c] + rest)[1..] == rest;
      case Behind(c) => SlashedRuns(word, Bare, c, rest);
      case InSingle(t) => SingleIsRead(word, t, rest);
      case InDouble(inner) => DoubleIsRead(word, inner, rest);
    }
  }

  lemma OpenRuns(word: string, p: Piece)
    requires PieceOk(p) && IsOpen(p)
    ensures Words(Scan(word, Bare, false), PieceText(p)) == Flushed(word + PieceMeans(p))
  {
    var text := PieceText(p);
    match p {
      case OpenSingle(t) =>
        assert text[1..] == t + "";
        SingleRuns(word, t, "");
      case OpenDouble(inner, dangling) =>
        var rest := if dangling then "\\" else "";
        assert text[1..] == InnerText(inner) + rest;
        DoubleRuns(word, inner, rest);
        assert dangling ==> rest[1..] == "";
      case Dangling => assert text[1..] == "" && word + "" == word;
    }
  }

  lemma {:induction false} WordsAre(word: string, pieces: seq<Piece>)
    requires PiecesOk(pieces)
    ensures Words(Scan(word, Bare, false), PiecesText(pieces)) == WordsOf(word, pieces)
    decreases |pieces|
  {
    if pieces != [] {
      var p, rest := pieces[0], pieces[1..];
      assert PieceOk(p) && forall i :: 0 <= i < |rest| ==> rest[i] == pieces[i + 1];
      if IsOpen(p) {
        assert |pieces| == 1 && PiecesText(pieces) == PieceText(p) + "" && PieceText(p) + "" == PieceText(p);
        OpenRuns(word, p);
      } else if p.Gap? {
        assert PiecesText(pieces)[1..] == PiecesText(rest);
        WordsAre("", rest);
      } else {
        PieceRuns(word, p, PiecesText(rest));
        WordsAre(word + PieceMeans(p), rest);
      }
    }
  }

  /** Splitting a text gives the words of its pieces. */
  lemma SplitIsWords(pieces: seq<Piece>)
    requires PiecesOk(pieces)
    ensures Split(PiecesText(pieces)) == WordsOf("", pieces)
  {
    WordsAre("", pieces);
  }

  lemma {:induction false} SinglePieces(text: string) returns (p: Piece, rest: string)
    ensures PieceOk(p) && "'" + text == PieceText(p) + rest && |rest| <= |text|
    ensures p.InSingle? || (p.OpenSingle? && rest == "")
    decreases |text|
  {
    if text == "" {
      p, rest := OpenSingle(""), "";
    } else if text[0] == '\'' {
      p, rest := InSingle(""), text[1..];
    } else {
      p, rest := SinglePieces(text[1..]);
      assert ("'" + text[1..])[1..] == text[1..] && (PieceText(p) + rest)[1..] == PieceText(p)[1..] + rest;
      p := p.(text := [text[0]] + p.text);
    }
  }

  lemma InnerGrows(x: Inner, inner: seq<Inner>)
    ensures InnerText([x] + inner) == (if x.Just? then [x.c] else ['\\', x.c]) + InnerText(inner)
  {
    assert ([x] + inner)[1..] == inner;
  }

  /** The text up to the closing quote, or to the end. */
  lemma {:induction false} InnerPieces(text: string) returns (inner: seq<Inner>, rest: string)
    ensures InnerOk(inner) && text == InnerText(inner) + rest
    ensures rest == "" || rest == "\\" || rest[0] == '"'
    decreases |text|
  {
    if text == "" || text[0] == '"' || text == "\\" {
      inner, rest := [], text;
    } else {
      var n := if text[0] == '\\' then 2 else 1;
      var x := if text[0] == '\\' then Slashed(text[1]) else Just(text[0]);
      var more;
      more, rest := InnerPieces(text[n..]);
      InnerGrows(x, more);
      inner := [x] + more;
      assert text == text[..n] + text[n..];
    }
  }

  lemma DoublePieces(text: string) returns (p: Piece, rest: string)
    ensures PieceOk(p) && "\"" + text == PieceText(p) + rest && |rest| <= |text|
    ensures p.InDouble? || (p.OpenDouble? && rest == "")
  {
    var inner, tail := InnerPieces(text);
    if tail != "" && tail[0] == '"' {
      p, rest := InDouble(inner), tail[1..];
      assert tail == "\"" + rest;
    } else {
      p, rest := OpenDouble(inner, tail != ""), "";
    }
  }

  lemma FirstPiece(text: string) returns (p: Piece, rest: string)
    requires text != ""
    ensures PieceOk(p) && text == PieceText(p) + rest && |rest| < |text| && (IsOpen(p) ==> rest == "")
  {
    var c, more := text[0], text[1..];
    assert text == [c] + more;
    if IsBlank(c) {
      p, rest := Gap(c), more;
    } else if c == '\\' {
      if more == "" {
        p, rest := Dangling, "";
      } else {
        p, rest := Behind(more[0]), more[1..];
      }
    } else if c == '\'' {
      p, rest := SinglePieces(more);
    } else if c == '"' {
      p, rest := DoublePieces(more);
    } else {
      p, rest := Rune(c), more;
    }
  }

  /** Every text is made of pieces, so that `SplitIsWords` speaks of every text. */
  lemma {:induction false} EveryTextHasPieces(text: string) returns (pieces: seq<Piece>)
    ensures PiecesOk(pieces) && PiecesText(pieces) == text
    decreases |text|
  {
    if text == "" {
      pieces := [];
    } else {
      var p, rest := FirstPiece(text);
      var more := EveryTextHasPieces(rest);
      pieces := [p] + more;
      assert pieces[1..] == more;
      assert IsOpen(p) ==> more == [] by { if more != [] { PieceIsNotEmpty(more[0]); } }
    }
  }

  lemma PieceIsNotEmpty(p: Piece)
    ensures PieceText(p) != ""
  {
  }

  // ---- Printing -------------------------------------------------------------------

  predicate HasBlank(v: string) { v != [] && (IsBlank(v[0]) || HasBlank(v[1..])) }

  predicate HasQuoting(v: string) { v != [] && (IsQuoting(v[0]) || HasQuoting(v[1..])) }

  function Escaped(v: string): string {
    if v == [] then []
    else (if v[0] == '\\' then ['\\', '\\'] else if v[0] == '"' then ['\\', '"'] else [v[0]]) + Escaped(v[1..])
  }

  function Printed(v: string): string {
    if HasBlank(v) then ['"'] + Escaped(v) + ['"'] else v
  }

  function PrintedAll(values: seq<string>): (parts: seq<string>)
    ensures |parts| == |values|
  {
    if values == [] then [] else [Printed(values[0])] + PrintedAll(values[1..])
  }

  /** `strings.Join(parts, " ")`. */
  function Join(parts: seq<string>): string {
    if parts == [] then []
    else if |parts| == 1 then parts[0]
    else parts[0] + [' '] + Join(parts[1..])
  }

  lemma {:induction false} HasBlankMeans(v: string)
    ensures HasBlank(v) <==> exists i :: 0 <= i < |v| && v[i] in {' ', '\t', '\n'}
  {
    if v != [] {
      HasBlankMeans(v[1..]);
      assert forall i :: 0 <= i < |v| - 1 ==> v[1..][i] == v[i + 1];
      if HasBlank(v[1..]) {
        var i :| 0 <= i < |v| - 1 && v[1..][i] in {' ', '\t', '\n'};
        assert v[i + 1] in {' ', '\t', '\n'};
      }
    }
  }

  /** The printed values stand in their order with one blank between any two. */
  lemma {:induction false} PrintedInOrder(a: seq<string>, b: seq<string>)
    requires a != [] && b != []
    ensures PromptText(a + b) == PromptText(a) + " " + PromptText(b)
    decreases |a|
  {
    assert (a + b)[1..] == a[1..] + b;
    if |a| == 1 {
      assert a[1..] + b == b && PrintedAll(a + b) == [Printed(a[0])] + PrintedAll(b);
      assert ([Printed(a[0])] + PrintedAll(b))[1..] == PrintedAll(b);
    } else {
      PrintedInOrder(a[1..], b);
      assert PrintedAll(a + b)[1..] == PrintedAll(a[1..] + b) && PrintedAll(a)[1..] == PrintedAll(a[1..]);
      assert PromptText(a + b) == Printed(a[0]) + " " + PromptText(a[1..] + b);
      assert PromptText(a) == Printed(a[0]) + " " + PromptText(a[1..]);
    }
  }

  /** A value with a blank is printed between double quotes, with a backslash in front of
      each double quote and backslash; any other is printed as it is. */
  lemma PrintedMeans(v: string) returns (inner: seq<Inner>)
    ensures PromptText([v]) == if HasBlank(v) then "\"" + InnerText(inner) + "\"" else v
    ensures InnerMeans(inner) == v && forall x :: x in inner ==> (x.Slashed? <==> x.c == '"' || x.c == '\\')
  {
    inner := EscapedMeans(v);
    assert PrintedAll([v]) == [Printed(v)];
  }

  lemma {:induction false} EscapedMeans(v: string) returns (inner: seq<Inner>)
    ensures InnerText(inner) == Escaped(v) && InnerMeans(inner) == v
    ensures forall x :: x in inner ==> (x.Slashed? <==> x.c == '"' || x.c == '\\')
  {
    if v == [] {
      inner := [];
    } else {
      var x := if v[0] == '"' || v[0] == '\\' then Slashed(v[0]) else Just(v[0]);
      var more := EscapedMeans(v[1..]);
      inner := [x] + more;
      assert inner[1..] == more;
    }
  }

  /** The values that `promptArgumentText` keeps: trimmed, without the empty ones. */
  function Kept(values: seq<string>): seq<string> {
    if values == [] then []
    else (if TrimSpace(values[0]) == "" then [] else [TrimSpace(values[0])]) + Kept(values[1..])
  }

  lemma {:induction false} KeptInOrder(a: seq<string>, b: seq<string>)
    ensures Kept(a + b) == Kept(a) + Kept(b)
    ensures forall v :: Kept([v]) == if TrimSpace(v) == "" then [] else [TrimSpace(v)]
  {
    if a == [] {
      assert a + b == b;
    } else {
      assert (a + b)[1..] == a[1..] + b;
      KeptInOrder(a[1..], b);
    }
  }

  /** The text of a list of kept values. */
  function PromptText(kept: seq<string>): string { Join(PrintedAll(kept)) }

  /** The parts that the values from `i` on still contribute. */
  function PartsFrom(values: seq<string>, i: nat): seq<string>
    requires i <= |values|
  {
    PrintedAll(Kept(values[i..]))
  }

  /** One more value: `done` is what the loop has collected. */
  lemma PartsStep(done: seq<string>, values: seq<string>, i: nat)
    requires i < |values|
    ensures var v := TrimSpace(values[i]);
            done + PartsFrom(values, i) == (if v == "" then done else done + [Printed(v)]) + PartsFrom(values, i + 1)
  {
    var v, rest := TrimSpace(values[i]), Kept(values[i + 1..]);
    assert values[i..][1..] == values[i + 1..];
    assert Kept(values[i..]) == (if v == "" then [] else [v]) + rest;
    if v == "" {
      assert Kept(values[i..]) == rest;
    } else {
      assert ([v] + rest)[1..] == rest;
    }
  }

  /** `promptArgumentText`, on the values in the order of the declared arguments. */
  method PromptArgumentText(values: seq<string>) returns (text: string)
    ensures text == PromptText(Kept(values))
  {
    var parts: seq<string> := [];
    assert values[0..] == values;
    ghost var want := PrintedAll(Kept(values));
    assert want == PartsFrom(values, 0);
    var i := 0;
    while i < |values|
      invariant 0 <= i <= |values|
      invariant parts + PartsFrom(values, i) == want
    {
      PartsStep(parts, values, i);
      var value := TrimSpace(values[i]);
      i := i + 1;
      if value == "" { continue; }
      parts := parts + [if HasBlank(value) then ['"'] + Escaped(value) + ['"'] else value];
    }
    assert PartsFrom(values, |values|) == [] && parts == want;
    text := Join(parts);
  }

  // ---- The round trip -------------------------------------------------------------

  /** Printed and split again, the value comes back. */
  predicate Good(v: string) { HasBlank(v) || !HasQuoting(v) }

  /** A value the printer leaves bare although the splitter reads quoting in it. */
  predicate Bad(v: string) { !HasBlank(v) && HasQuoting(v) }

  lemma {:induction false} WordsOfPlain(s: Scan, v: string, rest: string)
    requires Clean(s) && !HasBlank(v) && !HasQuoting(v)
    ensures Words(s, v + rest) == Words(s.(current := s.current + v), rest)
    decreases v
  {
    if v == [] {
      assert v + rest == rest && s.current + v == s.current;
    } else {
      assert !IsBlank(v[0]) && !IsQuoting(v[0]);
      assert (v + rest)[1..] == v[1..] + rest;
      var t := s.(current := s.current + [v[0]]);
      WordsOfPlain(t, v[1..], rest);
      assert t.current + v[1..] == s.current + v;
    }
  }

  /** Two runes of which the second is escaped. */
  lemma EscapedPair(s: Scan, c: char, tail: string)
    requires s.quote.Double? && !s.escaped
    ensures Words(s, ['\\', c] + tail) == Words(s.(current := s.current + [c]), tail)
  {
    var text := ['\\', c] + tail;
    assert text[1..] == [c] + tail && ([c] + tail)[1..] == tail;
  }

  lemma QuotedRune(s: Scan, c: char, tail: string)
    requires s.quote.Double? && !s.escaped && c != '\\' && c != '"'
    ensures Words(s, [c] + tail) == Words(s.(current := s.current + [c]), tail)
  {
    assert ([c] + tail)[1..] == tail;
  }

  lemma {:induction false} WordsOfEscaped(s: Scan, v: string, rest: string)
    requires s.quote.Double? && !s.escaped
    ensures Words(s, Escaped(v) + rest) == Words(s.(current := s.current + v), rest)
    decreases v
  {
    if v == [] {
      assert Escaped(v) + rest == rest && s.current + v == s.current;
    } else {
      var t := s.(current := s.current + [v[0]]);
      var tail := Escaped(v[1..]) + rest;
      WordsOfEscaped(t, v[1..], rest);
      assert t.current + v[1..] == s.current + v;
      if v[0] == '\\' || v[0] == '"' {
        assert Escaped(v) + rest == ['\\', v[0]] + tail;
        EscapedPair(s, v[0], tail);
      } else {
        assert Escaped(v) + rest == [v[0]] + tail;
        QuotedRune(s, v[0], tail);
      }
    }
  }

  /** A good value is read back as the word in progress. */
  lemma WordsOfGood(v: string, rest: string)
    requires Good(v)
    ensures Words(START, Printed(v) + rest) == Words(Scan(v, Bare, false), rest)
  {
    if HasBlank(v) {
      var inside := Escaped(v) + (['"'] + rest);
      assert Printed(v) + rest == ['"'] + inside;
      WordsOfEscaped(Scan("", Double, false), v, ['"'] + rest);
      assert "" + v == v;
      assert (['"'] + rest)[1..] == rest;
    } else {
      WordsOfPlain(START, v, rest);
      assert START.current + v == v;
    }
  }

  /** The state after text without a blank, which flushes nothing. */
  function Through(s: Scan, v: string): Scan
    decreases v
  {
    if v == [] then s else Through(Advance(s, v[0]), v[1..])
  }

  lemma {:induction false} WordsThrough(s: Scan, v: string, rest: string)
    requires !HasBlank(v)
    ensures Words(s, v + rest) == Words(Through(s, v), rest)
    decreases v
  {
    if v == [] {
      assert v + rest == rest;
    } else {
      assert (v + rest)[1..] == v[1..] + rest;
      WordsThrough(Advance(s, v[0]), v[1..], rest);
    }
  }

  /** The word in progress only grows, by at most one rune a rune. */
  lemma {:induction false} ThroughGrows(s: Scan, v: string)
    ensures s.current <= Through(s, v).current
    ensures |Through(s, v).current| <= |s.current| + |v|
    decreases v
  {
    if v != [] { ThroughGrows(Advance(s, v[0]), v[1..]); }
  }

  /** Reading a bad value from a clean state loses a rune. */
  lemma {:induction false} ThroughBad(s: Scan, v: string)
    requires Clean(s) && HasQuoting(v)
    ensures |Through(s, v).current| < |s.current| + |v|
    decreases v
  {
    if IsQuoting(v[0]) {
      ThroughGrows(Advance(s, v[0]), v[1..]);
    } else {
      ThroughBad(Advance(s, v[0]), v[1..]);
    }
  }

  /** A word in progress becomes the beginning of the next word. */
  lemma {:induction false} FirstWordExtends(s: Scan, text: string)
    requires s.current != ""
    ensures Words(s, text) != [] && s.current <= Words(s, text)[0]
    decreases text
  {
    if text != [] && !(Clean(s) && IsBlank(text[0])) { FirstWordExtends(Advance(s, text[0]), text[1..]); }
  }

  lemma {:induction false} BlankInside(v: string, i: nat)
    requires i < |v| && IsBlank(v[i])
    ensures HasBlank(v)
  {
    if i > 0 { BlankInside(v[1..], i - 1); }
  }

  /** Inside quotes or after a backslash the separator ends up in the word. */
  lemma FirstWordHasBlank(s: Scan, rest: string)
    requires !Clean(s)
    ensures Words(s, [' '] + rest) != [] && HasBlank(Words(s, [' '] + rest)[0])
  {
    var t := Advance(s, ' ');
    assert t.current == s.current + [' '];
    assert ([' '] + rest)[1..] == rest;
    FirstWordExtends(t, rest);
    BlankInside(Words(t, rest)[0], |s.current|);
  }

  lemma TextStep(v: string, rest: seq<string>)
    ensures PromptText([v] + rest) == if rest == [] then Printed(v) else Printed(v) + ([' '] + PromptText(rest))
  {
    assert ([v] + rest)[1..] == rest;
    assert PrintedAll([v] + rest) == [Printed(v)] + PrintedAll(rest);
    assert ([Printed(v)] + PrintedAll(rest))[1..] == PrintedAll(rest);
  }

  /** A good value at the head of the text is the first word, and the rest starts clean. */
  lemma GoodHead(v: string, rest: seq<string>)
    requires v != "" && Good(v)
    ensures Split(PromptText([v] + rest)) == [v] + Split(PromptText(rest))
  {
    TextStep(v, rest);
    if rest == [] {
      WordsOfGood(v, []);
      assert Printed(v) + [] == Printed(v);
    } else {
      var tail := PromptText(rest);
      WordsOfGood(v, [' '] + tail);
      assert ([' '] + tail)[1..] == tail;
    }
  }

  predicate NoneEmpty(values: seq<string>) { forall v :: v in values ==> v != "" }

  predicate AllGood(values: seq<string>) { forall v :: v in values ==> Good(v) }

  predicate AllBad(values: seq<string>) { forall v :: v in values ==> Bad(v) }

  /** What a bad value at the head of the text does: the text ends in a word too short for
      it, or some later word has a blank in it, or its quoting has cost it runes. */
  lemma BadHead(v: string, rest: seq<string>)
    requires v != "" && Bad(v)
    ensures var w := Split(PromptText([v] + rest));
            || (rest == [] && |w| <= 1 && (w != [] ==> |w[0]| < |v|))
            || (rest != [] && w != [] && HasBlank(w[0]))
            || (rest != [] && w != [] && |w[0]| < |v| && w[1..] == Split(PromptText(rest)))
            || (rest != [] && w == Split(PromptText(rest)))
  {
    TextStep(v, rest);
    var s := Through(START, v);
    ThroughBad(START, v);
    if rest == [] {
      WordsThrough(START, v, []);
      assert v + [] == v;
    } else {
      var tail := PromptText(rest);
      WordsThrough(START, v, [' '] + tail);
      if Clean(s) {
        assert ([' '] + tail)[1..] == tail;
        assert Words(s, [' '] + tail) == Flushed(s.current) + Split(tail);
      } else {
        FirstWordHasBlank(s, tail);
      }
    }
  }

  /** The words of a text cannot be its values with bad values put in front. */
  lemma {:induction false} NoShift(front: seq<string>, values: seq<string>)
    requires NoneEmpty(values) && AllBad(front) && front != []
    ensures Split(PromptText(values)) != front + values
    decreases |values|
  {
    var words := Split(PromptText(values));
    if values != [] && words == front + values {
      var v, rest := values[0], values[1..];
      assert values == [v] + rest && v in values;
      assert front[0] in front && words[0] == front[0];
      assert NoneEmpty(rest) by { forall x | x in rest ensures x in values {} }
      if Good(v) {
        GoodHead(v, rest);
        assert false;
      } else {
        BadHead(v, rest);
        if rest != [] && words == Split(PromptText(rest)) {
          assert front + values == (front + [v]) + rest;
          NoShift(front + [v], rest);
        } else if rest != [] && words[1..] == Split(PromptText(rest)) && |words[0]| < |v| {
          assert (front + values)[1..] == (front[1..] + [v]) + rest;
          NoShift(front[1..] + [v], rest);
        }
        assert false;
      }
    }
  }

  /** Splitting what `promptArgumentText` prints gives back the values it was given if and
      only if every value contains a blank or is free of quotes and backslashes. */
  lemma {:induction false} RoundTrip(values: seq<string>)
    requires NoneEmpty(values)
    ensures Split(PromptText(values)) == values <==> AllGood(values)
  {
    if values != [] {
      var v, rest := values[0], values[1..];
      assert values == [v] + rest && v in values;
      forall x | x in rest ensures x in values {}
      if Good(v) {
        GoodHead(v, rest);
        RoundTrip(rest);
        assert AllGood(values) <==> AllGood(rest);
        assert ([v] + Split(PromptText(rest)))[1..] == Split(PromptText(rest));
      } else {
        BadHead(v, rest);
        if rest != [] { NoShift([v], rest); }
        assert Split(PromptText(values)) != values;
      }
    }
  }

  lemma {:induction false} KeptAreNotEmpty(values: seq<string>)
    ensures NoneEmpty(Kept(values))
  {
    if values != [] { KeptAreNotEmpty(values[1..]); }
  }

  /** The same for any values whatever, as the printer trims and drops them. */
  lemma PromptRoundTrip(values: seq<string>)
    ensures Split(PromptText(Kept(values))) == Kept(values) <==> AllGood(Kept(values))
  {
    KeptAreNotEmpty(values);
    RoundTrip(Kept(values));
  }

  // ---- Substituting ---------------------------------------------------------------

  const WHOLE := "$ARGUMENTS"

  predicate IsPosition(c: char) { '1' <= c <= '9' }

  /** What the expander does at a `$`: how much of the body it takes and what it writes. */
  datatype Placeholder = Escape | Whole | Position(n: nat) | Plain

  function PlaceholderAt(body: string): Placeholder
    requires body != [] && body[0] == '$'
  {
    if |body| > 1 && body[1] == '$' then Escape
    else if WHOLE <= body then Whole
    else if |body| > 1 && IsPosition(body[1]) then Position((body[1] - '1') as nat)
    else Plain
  }

  function Width(p: Placeholder): nat {
    match p
    case Escape => 2
    case Whole => |WHOLE|
    case Position(_) => 2
    case Plain => 1
  }

  function Expansion(p: Placeholder, args: string, words: seq<string>): string {
    match p
    case Escape => "$"
    case Whole => args
    case Position(n) => if n < |words| then words[n] else ""
    case Plain => "$"
  }

  function SubstituteFrom(body: string, args: string, words: seq<string>): string
    decreases |body|
  {
    if body == [] then []
    else if body[0] != '$' then [body[0]] + SubstituteFrom(body[1..], args, words)
    else
      var p := PlaceholderAt(body);
      Expansion(p, args, words) + SubstituteFrom(body[Width(p)..], args, words)
  }

  function Substitute(body: string, args: string): string { SubstituteFrom(body, args, Split(args)) }

  // ---- What a substitution writes ---------------------------------------------------

  /** Text without a dollar is written as it is. */
  lemma {:induction false} TextIsKept(before: string, after: string, args: string)
    requires '$' !in before
    ensures Substitute(before + after, args) == before + Substitute(after, args)
    decreases |before|
  {
    var body := before + after;
    if before == "" {
      assert body == after;
    } else {
      assert body[0] == before[0] && body[1..] == before[1..] + after;
      TextIsKept(before[1..], after, args);
    }
  }

  /** `$1` to `$9` are the words of the arguments, counted from one, or nothing. */
  lemma PositionIsFilled(before: string, k: nat, after: string, args: string)
    requires '$' !in before && 1 <= k <= 9
    ensures Substitute(before + ['$', Digit(k)] + after, args)
         == before + (if k <= |Split(args)| then Split(args)[k - 1] else "") + Substitute(after, args)
  {
    var tail := ['$', Digit(k)] + after;
    assert before + ['$', Digit(k)] + after == before + tail;
    TextIsKept(before, tail, args);
    assert !(WHOLE <= tail) by { assert WHOLE[1] == 'A'; }
    assert tail[2..] == after;
  }

  /** `$ARGUMENTS` is the argument text as it was given. */
  lemma WholeIsFilled(before: string, after: string, args: string)
    requires '$' !in before
    ensures Substitute(before + "$ARGUMENTS" + after, args) == before + args + Substitute(after, args)
  {
    var tail := "$ARGUMENTS" + after;
    assert before + "$ARGUMENTS" + after == before + tail;
    TextIsKept(before, tail, args);
    assert WHOLE <= tail && tail[1] == 'A' && tail[|WHOLE|..] == after;
  }

  /** Two dollars are one, and what stands behind them is no placeholder. */
  lemma DollarIsEscaped(before: string, after: string, args: string)
    requires '$' !in before
    ensures Substitute(before + "$$" + after, args) == before + "$" + Substitute(after, args)
  {
    var tail := "$$" + after;
    assert before + "$$" + after == before + tail;
    TextIsKept(before, tail, args);
    assert tail[2..] == after;
  }

  /** Any other dollar stands for itself. */
  lemma OtherDollarIsKept(before: string, after: string, args: string)
    requires '$' !in before && !("ARGUMENTS" <= after)
    requires after == "" || (after[0] != '$' && !('1' <= after[0] <= '9'))
    ensures Substitute(before + "$" + after, args) == before + "$" + Substitute(after, args)
  {
    var tail := "$" + after;
    assert before + "$" + after == before + tail;
    TextIsKept(before, tail, args);
    assert tail[1..] == after;
    assert WHOLE[1..] == "ARGUMENTS";
  }

  /** From the values on: when they survive the printing, `$1` to `$9` are the values that
      were kept, and `$ARGUMENTS` is all of them as they were printed. */
  lemma ValuesAreFilled(values: seq<string>, before: string, k: nat, after: string)
    requires AllGood(Kept(values)) && '$' !in before && 1 <= k <= 9
    ensures var kept, args := Kept(values), PromptText(Kept(values));
            Substitute(before + ['$', Digit(k)] + after, args)
              == before + (if k <= |kept| then kept[k - 1] else "") + Substitute(after, args)
  {
    PromptRoundTrip(values);
    PositionIsFilled(before, k, after, PromptText(Kept(values)));
  }

  /** One turn of the loop of `substituteArguments`: what it writes and where it goes on. */
  method ExpandAt(body: string, index: nat, args: string, positional: seq<string>) returns (piece: string, next: nat)
    requires index < |body|
    ensures index < next <= |body|
    ensures SubstituteFrom(body[index..], args, positional) == piece + SubstituteFrom(body[next..], args, positional)
  {
    ghost var rest := body[index..];
    if body[index] != '$' {
      piece, next := [body[index]], index + 1;
    } else if index + 1 < |body| && body[index + 1] == '$' {
      piece, next := "$", index + 2;
    } else if WHOLE <= body[index..] {
      piece, next := args, index + |WHOLE|;
    } else if index + 1 < |body| && IsPosition(body[index + 1]) {
      var position := (body[index + 1] - '1') as int;
      piece, next := if position < |positional| then positional[position] else "", index + 2;
    } else {
      piece, next := [body[index]], index + 1;
    }
    assert rest[next - index..] == body[next..];
  }

  /** `substituteArguments`. */
  method SubstituteArguments(body: string, args: string) returns (text: string)
    ensures text == Substitute(body, args)
  {
    text := "";
    var positional := SplitArguments(args);
    var index := 0;
    assert body[0..] == body;
    while index < |body|
      invariant 0 <= index <= |body|
      invariant text + SubstituteFrom(body[index..], args, positional) == Substitute(body, args)
      decreases |body| - index
    {
      var piece, next := ExpandAt(body, index, args, positional);
      text, index := text + piece, next;
    }
  }

  /** The scan of `commandUsesArguments`. */
  predicate Uses(body: string)
    decreases |body|
  {
    if body == [] then false
    else if body[0] != '$' then Uses(body[1..])
    else
      match PlaceholderAt(body)
      case Escape => Uses(body[2..])
      case Whole => true
      case Position(_) => true
      case Plain => Uses(body[1..])
  }

  /** `commandUsesArguments`. */
  method CommandUsesArguments(body: string) returns (uses: bool)
    ensures uses <==> Uses(body)
  {
    var index := 0;
    while index < |body|
      invariant 0 <= index
      invariant Uses(body) == Uses(if index <= |body| then body[index..] else [])
      decreases |body| - index
    {
      ghost var rest := body[index..];
      if body[index] != '$' {
        assert rest[1..] == body[index + 1..];
        index := index + 1;
        continue;
      }
      if index + 1 < |body| && body[index + 1] == '$' {
        assert rest[2..] == body[index + 2..];
        index := index + 2;
        continue;
      }
      if WHOLE <= body[index..] { return true; }
      if index + 1 < |body| && IsPosition(body[index + 1]) { return true; }
      assert rest[1..] == body[index + 1..];
      index := index + 1;
    }
    return false;
  }

  lemma {:induction false} UnusedArgumentsDoNotMatter(body: string, a: string, b: string, aw: seq<string>,
      bw: seq<string>)
    requires !Uses(body)
    ensures SubstituteFrom(body, a, aw) == SubstituteFrom(body, b, bw)
    decreases |body|
  {
    if body != [] {
      var step := if body[0] != '$' then 1 else Width(PlaceholderAt(body));
      UnusedArgumentsDoNotMatter(body[step..], a, b, aw, bw);
    }
  }

  /** Nine words fill every placeholder; no argument empties every one of them. */
  lemma {:induction false} FilledIsLonger(body: string, args: string, words: seq<string>)
    requires args != "" && |words| == 9 && NoneEmpty(words)
    ensures |SubstituteFrom(body, args, words)| >= |SubstituteFrom(body, "", [])|
    ensures Uses(body) ==> |SubstituteFrom(body, args, words)| > |SubstituteFrom(body, "", [])|
    decreases |body|
  {
    if body != [] {
      var step := if body[0] != '$' then 1 else Width(PlaceholderAt(body));
      FilledIsLonger(body[step..], args, words);
      if body[0] == '$' && PlaceholderAt(body).Position? {
        assert words[PlaceholderAt(body).n] in words;
      }
    }
  }

  /** The scanner says yes if and only if some two argument strings expand the body
      differently: the two independent scans agree on every body, escapes included. */
  lemma ScannersAgree(body: string)
    ensures Uses(body) <==> exists a, b :: Substitute(body, a) != Substitute(body, b)
  {
    if Uses(body) {
      var words := seq(9, _ => "x");
      assert AllGood(words) by { assert Good("x"); }
      RoundTrip(words);
      var args := PromptText(words);
      assert Split("") == [];
      assert words[0] in words && args != "";
      FilledIsLonger(body, args, words);
      assert Substitute(body, args) != Substitute(body, "");
    } else {
      forall a, b ensures Substitute(body, a) == Substitute(body, b) {
        UnusedArgumentsDoNotMatter(body, a, b, Split(a), Split(b));
      }
    }
  }
}
