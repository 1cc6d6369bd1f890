/** What a compiler in ISO mode makes of the emitted literals: it replaces trigraphs (5.2.1.1 of
    ISO/IEC 9899:2011) before it reads anything else. */
module Trigraphs {
  import opened Basics
  import opened Texts
  import opened CLiteral

  /** What two question marks and a character stand for. */
  function Third(c: char): Option<char> {
    if c == '=' then Some('#') else if c == '(' then Some('[') else if c == ')' then Some(']')
    else if c == '<' then Some('{') else if c == '>' then Some('}') else if c == '!' then Some('|')
    else if c == '\'' then Some('^') else if c == '-' then Some('~') else if c == '/' then Some(BACKSLASH)
    else None
  }

  predicate StartsTrigraph(t: Text) {
    t.Ch? && t.c == '?' && t.rest.Ch? && t.rest.c == '?' && t.rest.rest.Ch? && Third(t.rest.rest.c).Some?
  }

  /** The first translation phase. */
  function Replace(t: Text): Text
    decreases t
  {
    if t.End? then End
    else if StartsTrigraph(t) then Ch(Third(t.rest.rest.c).value, Replace(t.rest.rest.rest))
    else Ch(t.c, Replace(t.rest))
  }

  /** The same on the text that is emitted. */
  predicate Leads(s: string) { |s| >= 3 && s[0] == '?' && s[1] == '?' && Third(s[2]).Some? }

  function Replaced(s: string): string {
    if s == "" then "" else if Leads(s) then [Third(s[2]).value] + Replaced(s[3..]) else [s[0]] + Replaced(s[1..])
  }

  predicate NoTrigraph(s: string) { s == "" || (!Leads(s) && NoTrigraph(s[1..])) }

  /** None of them is the one that stands for a backslash. */
  predicate NoBackslash(s: string) { s == "" || (!(Leads(s) && s[2] == '/') && NoBackslash(s[1..])) }

  lemma {:induction false} ReplacedIsShorter(s: string)
    ensures |Replaced(s)| <= |s| && (Replaced(s) == s <==> NoTrigraph(s))
    decreases |s|
  {
    if s != "" {
      if Leads(s) {
        ReplacedIsShorter(s[3..]);
      } else {
        ReplacedIsShorter(s[1..]);
        assert s == [s[0]] + s[1..];
        assert Replaced(s) == s ==> Replaced(s)[1..] == Replaced(s[1..]) == s[1..];
      }
    }
  }

  /** The first character of an escape is the character itself or a backslash. */
  lemma FirstOfEscape(c: char, t: Text)
    ensures var e := Before(Escape(c), t); e.Ch? && (e.c == c || e.c == BACKSLASH) && (c == '?' || Third(c).Some? ==> e == Ch(c, t))
  {
    EscapeCases(c, t);
  }

  lemma EscapeIsKept(c: char, t: Text)
    requires c != '?'
    ensures Replace(Before(Escape(c), t)) == Before(Escape(c), Replace(t))
  {
    EscapeCases(c, t);
    EscapeCases(c, Replace(t));
    if HexEscaped(c) {
      var hi, lo := HexChar(c as int / 16), HexChar(c as int % 16);
      Kept(lo, t);
      Kept(hi, Ch(lo, t));
      Kept('x', Ch(hi, Ch(lo, t)));
    }
  }

  lemma Kept(c: char, t: Text)
    requires c != '?'
    ensures Replace(Ch(c, t)) == Ch(c, Replace(t))
  {
  }

  /** In the emitted characters trigraphs stand where they stand in the text. */
  lemma LeadsAsText(s: string, q: Text)
    requires s != "" && q.Ch? && q.c == QUOTE
    ensures StartsTrigraph(Body(s, q)) <==> Leads(s)
    ensures Leads(s) ==> Body(s, q) == Ch('?', Ch('?', Ch(s[2], Body(s[3..], q))))
    ensures s[0] == '?' ==> Body(s, q) == Ch('?', Body(s[1..], q))
  {
    FirstOfEscape(s[0], Body(s[1..], q));
    if s[0] == '?' && |s| > 1 {
      FirstOfEscape(s[1], Body(s[1..][1..], q));
      assert s[1..][1..] == s[2..];
      if s[1] == '?' && |s| > 2 {
        FirstOfEscape(s[2], Body(s[2..][1..], q));
        assert s[2..][1..] == s[3..];
      }
    }
  }

  lemma {:induction false} BodyReplaced(s: string, t: Text)
    requires NoBackslash(s)
    ensures Replace(Body(s, Ch(QUOTE, t))) == Body(Replaced(s), Ch(QUOTE, Replace(t)))
    decreases |s|
  {
    var q := Ch(QUOTE, t);
    if s != "" {
      LeadsAsText(s, q);
      if Leads(s) {
        LaterNoBackslash(s);
        BodyReplaced(s[3..], t);
        var c := Third(s[2]).value;
        assert Replaced(s)[1..] == Replaced(s[3..]);
        EscapeCases(c, Body(Replaced(s[3..]), Ch(QUOTE, Replace(t))));
      } else {
        BodyReplaced(s[1..], t);
        assert Replaced(s)[1..] == Replaced(s[1..]);
        if s[0] != '?' { EscapeIsKept(s[0], Body(s[1..], q)); }
        else { FirstOfEscape(s[0], Body(Replaced(s[1..]), Ch(QUOTE, Replace(t)))); }
      }
    }
  }

  lemma LaterNoBackslash(s: string)
    requires NoBackslash(s) && |s| >= 3
    ensures NoBackslash(s[3..])
  {
    assert s[1..][1..][1..] == s[3..];
    assert NoBackslash(s[1..]) && NoBackslash(s[1..][1..]);
  }

  /** In ISO mode, a text without the trigraph for a backslash reads back from its literal if and only if it
      has no trigraph at all and no hex escape runs on into a hex digit. */
  lemma IsoLiteralReadsBack(s: string, t: Text)
    requires NoBackslash(s) && ReadPieces(Replace(t)) == Some("")
    ensures ReadPieces(Replace(Literal(s, t))) == Some(s) <==> NoHexMerge(s) && NoTrigraph(s)
  {
    BodyReplaced(s, t);
    assert Replace(Literal(s, t)) == Literal(Replaced(s), Replace(t));
    BodyReadsBack(Replaced(s), Replace(t));
    ReplacedIsShorter(s);
  }

  /** The text `??/` is emitted as it is; in ISO mode its last two characters escape the closing quote. */
  lemma BackslashTrigraphIsLost()
    ensures ReadPieces(Replace(Literal("??/", Open(";")))) != Some("??/")
  {
    var s := "??/";
    assert s[3..] == "";
    LeadsAsText(s, Ch(QUOTE, Open(";")));
    assert ";"[1..] == "";
    assert Replace(Ch(QUOTE, Ch(';', End))) == Ch(QUOTE, Ch(';', End));
    assert ReadInside(Ch(BACKSLASH, Ch(QUOTE, Ch(';', End)))) == Push(QUOTE, ReadInside(Ch(';', End)));
  }

  // ----- Bundled files -----

  lemma PieceEscapeCases(c: char, t: Text)
    ensures var e := Before(PieceEscape(c), t);
            e.Ch? && (e.c == c || e.c == BACKSLASH) && (c == '?' || Third(c).Some? ==> e == Ch(c, t))
  {
    var e := PieceEscape(c);
    if |e| == 1 { assert e[1..] == ""; }
  }

  lemma PieceEscapeIsKept(c: char, t: Text)
    requires c != '?'
    ensures Replace(Before(PieceEscape(c), t)) == Before(PieceEscape(c), Replace(t))
  {
    var e := PieceEscape(c);
    NoQuestion(e, t);
  }

  lemma {:induction false} NoQuestion(e: string, t: Text)
    requires '?' !in e
    ensures Replace(Before(e, t)) == Before(e, Replace(t))
  {
    if e != "" {
      NoQuestion(e[1..], t);
      Kept(e[0], Before(e[1..], t));
    }
  }

  /** The first characters of a piece. */
  lemma PieceStarts(s: string, n: nat, t: Text)
    ensures var p := Piece(s, n, t);
            p.Ch? && (s == "" || n >= LINE ==> p.c == QUOTE)
            && (s != "" && n < LINE ==>
                  (p.c == s[0] || p.c == BACKSLASH) && (s[0] == '?' || Third(s[0]).Some? ==> p == Ch(s[0], Piece(s[1..], n + 1, t))))
  {
    if s != "" && n < LINE && s[0] != '\n' { PieceEscapeCases(s[0], Piece(s[1..], n + 1, t)); }
  }

  lemma {:induction false} PieceKept(s: string, n: nat, t: Text)
    requires NoTrigraph(s)
    ensures Replace(Piece(s, n, t)) == Piece(s, n, Replace(t))
    decreases |s|, if n < LINE then 0 else 2
  {
    if s == "" {
      Kept(QUOTE, Ch('\n', t));
      Kept('\n', t);
    } else if n >= LINE {
      PiecesKept(s, t);
      Kept(QUOTE, Ch('\n', Pieces(s, t)));
      Kept('\n', Pieces(s, t));
    } else if s[0] == '\n' {
      PiecesKept(s[1..], t);
      Kept(QUOTE, Ch('\n', Pieces(s[1..], t)));
      Kept('\n', Pieces(s[1..], t));
      PieceEscapeIsKept('\n', Ch(QUOTE, Ch('\n', Pieces(s[1..], t))));
    } else {
      PieceKept(s[1..], n + 1, t);
      if s[0] != '?' { PieceEscapeIsKept(s[0], Piece(s[1..], n + 1, t)); } else { QuestionIsKept(s, n, t); }
    }
  }

  lemma QuestionIsKept(s: string, n: nat, t: Text)
    requires s != "" && s[0] == '?' && NoTrigraph(s) && n < LINE
    requires Replace(Piece(s[1..], n + 1, t)) == Piece(s[1..], n + 1, Replace(t))
    ensures Replace(Piece(s, n, t)) == Piece(s, n, Replace(t))
  {
    PieceStarts(s, n, t);
    PieceStarts(s[1..], n + 1, t);
    if |s| > 1 && s[1] == '?' {
      PieceStarts(s[1..][1..], n + 2, t);
      if |s| > 2 { assert s[1..][1..][0] == s[2]; }
    }
    PieceStarts(s, n, Replace(t));
  }

  lemma {:induction false} PiecesKept(s: string, t: Text)
    requires NoTrigraph(s)
    ensures Replace(Pieces(s, t)) == Pieces(s, Replace(t))
    decreases |s|, 1
  {
    if s != "" {
      PieceKept(s, 0, t);
      Kept(QUOTE, Piece(s, 0, t));
    }
  }

  /** In ISO mode, a bundled file without trigraphs is still what the array holds. */
  lemma IsoPiecesReadBack(s: string, t: Text)
    requires NoTrigraph(s) && ReadPieces(Replace(t)) == Some("")
    ensures ReadPieces(Replace(Pieces(s, t))) == Some(s)
  {
    PiecesKept(s, t);
    PiecesReadBack(s, Replace(t));
  }
}
