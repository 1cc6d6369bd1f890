/** C string literals: the two emitters, and how a C compiler reads what they emit. */
module CLiteral {
  import opened Basics
  import opened Texts

  // ----- Reading: escapes (6.4.4.4 of ISO/IEC 9899:2011) and adjacent literals (5.1.1.2) -----

  function HexDigit(c: char): int {
    if '0' <= c <= '9' then c as int - '0' as int
    else if 'a' <= c <= 'f' then c as int - 'a' as int + 10
    else if 'A' <= c <= 'F' then c as int - 'A' as int + 10
    else -1
  }

  datatype Hex = Hex(value: int, rest: Text)

  /** As many hex digits as there are. */
  function ReadHex(t: Text, acc: int): Hex {
    if t.Ch? && HexDigit(t.c) >= 0 then ReadHex(t.rest, acc * 16 + HexDigit(t.c)) else Hex(acc, t)
  }

  lemma {:induction false} HexShortens(t: Text, acc: int)
    ensures ReadHex(t, acc).rest.Len() <= t.Len()
  {
    if t.Ch? && HexDigit(t.c) >= 0 { HexShortens(t.rest, acc * 16 + HexDigit(t.c)); }
  }

  function SimpleEscape(c: char): Option<char> {
    if c == 'n' then Some('\n') else if c == 't' then Some('\t') else if c == 'r' then Some('\r')
    else if c == QUOTE then Some(QUOTE) else if c == BACKSLASH then Some(BACKSLASH) else None
  }

  function Push(c: char, r: Option<string>): Option<string> { if r.Some? then Some([c] + r.value) else None }

  /** Inside a literal. */
  function ReadInside(t: Text): Option<string>
    decreases t.Len()
  {
    if t.End? || t.c == '\n' then None
    else if t.c == QUOTE then ReadPieces(t.rest)
    else if t.c != BACKSLASH then Push(t.c, ReadInside(t.rest))
    else ReadEscape(t.rest)
  }

  /** Behind a backslash; a hex escape must fit a character. */
  function ReadEscape(t: Text): Option<string>
    decreases t.Len()
  {
    if t.End? then None
    else if t.c == 'x' then
      if t.rest.End? || HexDigit(t.rest.c) < 0 then None else
      HexShortens(t.rest, 0);
      var h := ReadHex(t.rest, 0);
      if 0 <= h.value < 256 then Push(h.value as char, ReadInside(h.rest)) else None
    else if SimpleEscape(t.c).Some? then Push(SimpleEscape(t.c).value, ReadInside(t.rest))
    else None
  }

  /** Between literals: another one is joined on, white space is skipped, anything else ends the string. */
  function ReadPieces(t: Text): Option<string>
    decreases t.Len()
  {
    if t.Ch? && (t.c == '\n' || t.c == ' ') then ReadPieces(t.rest)
    else if t.Ch? && t.c == QUOTE then ReadInside(t.rest)
    else Some("")
  }

  // ----- The code generator's emitter -----

  function HexChar(n: int): char
    requires 0 <= n < 16
  {
    if n < 10 then ('0' as int + n) as char else ('a' as int + n - 10) as char
  }

  predicate Hexed(c: char) { c < ' ' || c == 127 as char }

  /** One character of emit_c_string. */
  function Escape(c: char): string {
    if c == QUOTE then "\\\"" else if c == BACKSLASH then "\\\\"
    else if c == '\n' then "\\n" else if c == '\t' then "\\t" else if c == '\r' then "\\r"
    else if Hexed(c) then ['\\', 'x', HexChar(c as int / 16), HexChar(c as int % 16)]
    else [c]
  }

  /** The escaped characters of s in front of t. */
  function Body(s: string, t: Text): Text { if s == "" then t else Before(Escape(s[0]), Body(s[1..], t)) }

  function Literal(s: string, t: Text): Text { Ch(QUOTE, Body(s, Ch(QUOTE, t))) }

  method EmitCString(s: string) returns (dst: string)
    ensures forall t :: Before(dst, t) == Literal(s, t)
  {
    dst := [QUOTE];
    var rest := s;
    while rest != ""
      invariant forall t :: Literal(s, t) == Before(dst, Body(rest, Ch(QUOTE, t)))
      decreases |rest|
    {
      forall t ensures Before(dst + Escape(rest[0]), Body(rest[1..], Ch(QUOTE, t))) == Before(dst, Body(rest, Ch(QUOTE, t))) {
        BeforeAppend(dst, Escape(rest[0]), Body(rest[1..], Ch(QUOTE, t)));
      }
      dst := dst + Escape(rest[0]);
      rest := rest[1..];
    }
    forall t ensures Before(dst + [QUOTE], t) == Before(dst, Ch(QUOTE, t)) {
      BeforeAppend(dst, [QUOTE], t);
      assert [QUOTE][1..] == "";
    }
    dst := dst + [QUOTE];
  }

  // ----- When the literal reads back -----

  /** The characters a hex escape would swallow if it came in front of s. */
  function HexRun(s: string): (n: nat)
    ensures n <= |s|
  {
    if s != "" && HexDigit(s[0]) >= 0 then 1 + HexRun(s[1..]) else 0
  }

  /** No character that is emitted as a hex escape stands in front of a hex digit. */
  predicate NoHexMerge(s: string) {
    s == "" || (NoHexMerge(s[1..]) && !(HexEscaped(s[0]) && HexRun(s[1..]) > 0))
  }

  predicate HexEscaped(c: char) { Hexed(c) && c != '\n' && c != '\t' && c != '\r' }

  lemma EscapeCases(c: char, t: Text)
    ensures Before(Escape(c), t)
         == if HexEscaped(c) then Ch('\\', Ch('x', Ch(HexChar(c as int / 16), Ch(HexChar(c as int % 16), t))))
            else if |Escape(c)| == 2 then Ch('\\', Ch(Escape(c)[1], t)) else Ch(c, t)
  {
    var e := Escape(c);
    if HexEscaped(c) {
      assert e == ['\\', 'x'] + [HexChar(c as int / 16), HexChar(c as int % 16)];
      BeforeAppend(['\\', 'x'], [HexChar(c as int / 16), HexChar(c as int % 16)], t);
      BeforeTwo(HexChar(c as int / 16), HexChar(c as int % 16), t);
      BeforeTwo('\\', 'x', Before([HexChar(c as int / 16), HexChar(c as int % 16)], t));
    } else if |e| == 2 {
      assert e == ['\\', e[1]];
      BeforeTwo('\\', e[1], t);
    } else {
      assert e == [c] && [c][1..] == "";
    }
  }

  /** A character that is not emitted as a hex escape is read back. */
  lemma PlainReadsBack(c: char, t: Text)
    requires !HexEscaped(c)
    ensures ReadInside(Before(Escape(c), t)) == Push(c, ReadInside(t))
  {
    EscapeCases(c, t);
  }

  /** The digits of a hex escape and what follows. */
  lemma HexReadsOn(c: char, t: Text)
    requires HexEscaped(c)
    ensures var h := ReadHex(t, c as int);
      ReadInside(Before(Escape(c), t)) == if 0 <= h.value < 256 then Push(h.value as char, ReadInside(h.rest)) else None
  {
    EscapeCases(c, t);
    var hi, lo := HexChar(c as int / 16), HexChar(c as int % 16);
    assert HexDigit(hi) == c as int / 16 && HexDigit(lo) == c as int % 16;
    assert ReadHex(Ch(hi, Ch(lo, t)), 0) == ReadHex(Ch(lo, t), c as int / 16) == ReadHex(t, c as int);
    assert ReadInside(Before(Escape(c), t)) == ReadEscape(Ch('x', Ch(hi, Ch(lo, t))));
  }

  /** Hex digits of the text are emitted as they are, and swallowed. */
  lemma {:induction false} RunIsSwallowed(s: string, t: Text, acc: int)
    requires acc >= 0 && t.Ch? && HexDigit(t.c) < 0
    ensures var h := ReadHex(Body(s, t), acc); h.rest == Body(s[HexRun(s)..], t) && h.value >= acc
    decreases |s|
  {
    if s != "" {
      EscapeCases(s[0], Body(s[1..], t));
      if HexDigit(s[0]) >= 0 {
        RunIsSwallowed(s[1..], t, acc * 16 + HexDigit(s[0]));
        assert s[1..][HexRun(s[1..])..] == s[HexRun(s)..];
      } else if HexEscaped(s[0]) || |Escape(s[0])| == 2 {
        assert HexDigit('\\') < 0;
      }
    }
  }

  /** What is read back is never longer than the text, and it is the text exactly when no hex escape runs
      on into a hex digit. */
  lemma {:induction false} BodyReadsBack(s: string, t: Text)
    requires ReadPieces(t) == Some("")
    ensures var r := ReadInside(Body(s, Ch(QUOTE, t)));
      && (NoHexMerge(s) ==> r == Some(s))
      && (r.Some? ==> |r.value| <= |s| && (!NoHexMerge(s) ==> |r.value| < |s|))
    decreases |s|
  {
    var q := Ch(QUOTE, t);
    if s != "" {
      assert s == [s[0]] + s[1..];
      if HexEscaped(s[0]) {
        HexReadsOn(s[0], Body(s[1..], q));
        RunIsSwallowed(s[1..], q, s[0] as int);
        var n := HexRun(s[1..]);
        BodyReadsBack(s[1..][n..], t);
        if n == 0 {
          assert s[1..][0..] == s[1..];
        } else {
          assert |s[1..][n..]| < |s[1..]|;
        }
      } else {
        PlainReadsBack(s[0], Body(s[1..], q));
        BodyReadsBack(s[1..], t);
      }
    }
  }

  /** A compiler reads an emitted literal as the text it was made from exactly when no character that is
      written as a hex escape is followed by a hex digit. */
  lemma LiteralReadsBack(s: string, t: Text)
    requires ReadPieces(t) == Some("")
    ensures ReadPieces(Literal(s, t)) == Some(s) <==> NoHexMerge(s)
  {
    BodyReadsBack(s, t);
  }

  /** The character with code 1 in front of an `a` is read as the one with code 26. */
  lemma HexEscapeRunsOn(t: Text)
    requires ReadPieces(t) == Some("")
    ensures var s := [1 as char, 'a']; ReadPieces(Literal(s, t)) == Some([26 as char]) && [26 as char] != s
  {
    var s, q := [1 as char, 'a'], Ch(QUOTE, t);
    assert s[1..] == ['a'] && ['a'][1..] == "";
    EscapeCases('a', q);
    assert Body(['a'], q) == Ch('a', q);
    HexReadsOn(s[0], Ch('a', q));
    assert ReadHex(Ch('a', q), 1) == Hex(26, q);
    assert ReadInside(q) == Some("");
    assert Body(s, q) == Before(Escape(s[0]), Ch('a', q));
    assert ReadInside(Body(s, q)) == Push(26 as char, Some(""));
    assert [26 as char] + "" == [26 as char];
  }

  // ----- The generator of bundled files -----

  const LINE: nat := 60
  const NUL: char := 0 as char

  /** One character of a piece; a hex escape ends its literal, so that nothing can run on. */
  function PieceEscape(c: char): string {
    if c == QUOTE then "\\\"" else if c == BACKSLASH then "\\\\"
    else if c == '\n' then "\\n" else if c == '\t' then "\\t"
    else if c < ' ' then ['\\', 'x', HexChar(c as int / 16), HexChar(c as int % 16), QUOTE, QUOTE]
    else [c]
  }

  /** The literals of s, one a line, in front of t. */
  function Pieces(s: string, t: Text): Text
    decreases |s|, 1
  {
    if s == "" then t else Ch(QUOTE, Piece(s, 0, t))
  }

  /** The rest of a literal that holds n characters already: a literal ends behind a newline or when it is full. */
  function Piece(s: string, n: nat, t: Text): Text
    decreases |s|, if n < LINE then 0 else 2
  {
    if s == "" then Ch(QUOTE, Ch('\n', t))
    else if n >= LINE then Ch(QUOTE, Ch('\n', Pieces(s, t)))
    else Before(PieceEscape(s[0]), if s[0] == '\n' then Ch(QUOTE, Ch('\n', Pieces(s[1..], t))) else Piece(s[1..], n + 1, t))
  }

  /** What a C string holds. */
  function CString(b: string): string { if b == "" || b[0] == NUL then "" else [b[0]] + CString(b[1..]) }

  /** The nested loops, up to the end of the C string; the cursor is kept as the characters from it on. */
  method EmitEmbed(b: string) returns (o: string)
    ensures forall t :: Before(o, t) == Pieces(CString(b), t)
  {
    o := "";
    var p := b;
    while p != "" && p[0] != NUL
      invariant forall t :: Pieces(CString(b), t) == Before(o, Pieces(CString(p), t))
      decreases |p|
    {
      var line;
      line, p := EmitLine(p);
      ghost var before := o;
      forall t ensures Before(before + line, Pieces(CString(p), t)) == Before(before, Before(line, Pieces(CString(p), t))) {
        BeforeAppend(before, line, Pieces(CString(p), t));
      }
      o := o + line;
    }
  }

  /** One literal and its line end. */
  method EmitLine(s: string) returns (line: string, p: string)
    requires s != "" && s[0] != NUL
    ensures |p| < |s|
    ensures forall t :: Pieces(CString(s), t) == Before(line, Pieces(CString(p), t))
  {
    line, p := [QUOTE], s;
    var linelen := 0;
    var broken := false;
    while !broken && p != "" && p[0] != NUL && linelen < LINE
      invariant if linelen == 0 then p == s && !broken else |p| < |s|
      invariant forall t :: Pieces(CString(s), t) == Before(line, Inner(CString(p), broken, linelen, t))
      decreases |p|, broken
    {
      ghost var before, c, rest := line, p[0], p[1..];
      forall t ensures Before(before + PieceEscape(c), Inner(CString(rest), c == '\n', linelen + 1, t))
                    == Before(before, Piece(CString(p), linelen, t)) {
        BeforeAppend(before, PieceEscape(c), Inner(CString(rest), c == '\n', linelen + 1, t));
        assert CString(p)[1..] == CString(rest);
      }
      line := line + PieceEscape(p[0]);
      broken := p[0] == '\n';
      p := p[1..];
      linelen := linelen + 1;
    }
    forall t ensures Before(line + [QUOTE, '\n'], t) == Before(line, Ch(QUOTE, Ch('\n', t))) {
      BeforeAppend(line, [QUOTE, '\n'], t);
      BeforeTwo(QUOTE, '\n', t);
    }
    line := line + [QUOTE, '\n'];
  }

  function Inner(s: string, broken: bool, n: nat, t: Text): Text {
    if broken then Ch(QUOTE, Ch('\n', Pieces(s, t))) else Piece(s, n, t)
  }

  lemma PieceCharReadsBack(c: char, t: Text)
    ensures ReadInside(Before(PieceEscape(c), t)) == Push(c, ReadInside(t))
  {
    var e := PieceEscape(c);
    if c < ' ' && c != '\n' && c != '\t' {
      var hi, lo := HexChar(c as int / 16), HexChar(c as int % 16);
      assert e == ['\\', 'x'] + ([hi, lo] + [QUOTE, QUOTE]);
      BeforeAppend(['\\', 'x'], [hi, lo] + [QUOTE, QUOTE], t);
      BeforeAppend([hi, lo], [QUOTE, QUOTE], t);
      BeforeTwo(QUOTE, QUOTE, t);
      BeforeTwo(hi, lo, Ch(QUOTE, Ch(QUOTE, t)));
      BeforeTwo('\\', 'x', Ch(hi, Ch(lo, Ch(QUOTE, Ch(QUOTE, t)))));
      HexStops(c, hi, lo, Ch(QUOTE, Ch(QUOTE, t)));
    } else if |e| == 2 {
      assert e == ['\\', e[1]];
      BeforeTwo('\\', e[1], t);
    } else {
      assert e == [c] && [c][1..] == "";
    }
  }

  lemma HexStops(c: char, hi: char, lo: char, q: Text)
    requires c < ' ' && hi == HexChar(c as int / 16) && lo == HexChar(c as int % 16) && q.Ch? && q.c == QUOTE
    ensures ReadInside(Ch('\\', Ch('x', Ch(hi, Ch(lo, q))))) == Push(c, ReadInside(q))
  {
    assert HexDigit(hi) == c as int / 16 && HexDigit(lo) == c as int % 16;
    assert ReadHex(Ch(hi, Ch(lo, q)), 0) == ReadHex(Ch(lo, q), c as int / 16) == ReadHex(q, c as int) == Hex(c as int, q);
    assert ReadInside(Ch('\\', Ch('x', Ch(hi, Ch(lo, q))))) == ReadEscape(Ch('x', Ch(hi, Ch(lo, q))));
  }

  /** A compiler that joins the emitted literals reads exactly the text, whatever its characters. */
  lemma {:induction false} PiecesReadBack(s: string, t: Text)
    requires ReadPieces(t) == Some("")
    ensures ReadPieces(Pieces(s, t)) == Some(s)
    decreases |s|, 1
  {
    if s != "" { PieceReadsBack(s, 0, t); }
  }

  lemma {:induction false} PieceReadsBack(s: string, n: nat, t: Text)
    requires ReadPieces(t) == Some("")
    ensures ReadInside(Piece(s, n, t)) == Some(s)
    decreases |s|, if n < LINE then 0 else 2
  {
    if s == "" { LineEnds(t); }
    else if n >= LINE {
      PiecesReadBack(s, t);
      LineEnds(Pieces(s, t));
    } else {
      assert s == [s[0]] + s[1..];
      if s[0] == '\n' {
        PiecesReadBack(s[1..], t);
        LineEnds(Pieces(s[1..], t));
        PieceCharReadsBack(s[0], Ch(QUOTE, Ch('\n', Pieces(s[1..], t))));
      } else {
        PieceReadsBack(s[1..], n + 1, t);
        PieceCharReadsBack(s[0], Piece(s[1..], n + 1, t));
      }
    }
  }

  lemma LineEnds(t: Text)
    ensures ReadInside(Ch(QUOTE, Ch('\n', t))) == ReadPieces(t)
  {
  }

  /** So the array of a bundled file holds the file up to its first NUL, and all of it when it has none. */
  lemma {:induction false} EmbeddedFileReadsBack(b: string)
    ensures ReadPieces(Pieces(CString(b), Open(";"))) == Some(CString(b))
    ensures CString(b) == b <==> NUL !in b
  {
    PiecesReadBack(CString(b), Open(";"));
    CStringIsAll(b);
  }

  lemma {:induction false} CStringIsAll(b: string)
    ensures CString(b) == b <==> NUL !in b
    ensures |CString(b)| <= |b|
    decreases |b|
  {
    if b != "" {
      CStringIsAll(b[1..]);
      assert b == [b[0]] + b[1..];
      if b[0] != NUL { assert CString(b)[1..] == CString(b[1..]); }
    }
  }
}
