/** How any text is written in a double-quoted string, and that the splitter reads it back. */
module TemplateEscapes {
  import opened Basics
  import opened Texts
  import opened Template
  import CLiteral

  // ----- Writing -----

  /** What stands behind the backslash for a character that cannot stand for itself. */
  function Letter(c: char): Option<char> {
    match c
    case '\n' => Some('n')
    case '\t' => Some('t')
    case '\r' => Some('r')
    case '\0' => Some('0')
    case '"' => Some('"')
    case '\\' => Some('\\')
    case '$' => Some('$')
    case _ => None
  }

  /** The characters of s, escaped, in front of t. */
  function Escaped(s: string, t: Text): Text {
    if s == "" then t
    else if Letter(s[0]).Some? then Ch('\\', Ch(Letter(s[0]).value, Escaped(s[1..], t)))
    else Ch(s[0], Escaped(s[1..], t))
  }

  /** Chunks with the marked expressions between them, in front of t. */
  function Body(strs: seq<string>, exprs: seq<string>, t: Text): Text
    requires |strs| == |exprs| + 1
    decreases |exprs|
  {
    Escaped(strs[0], if exprs == [] then t else Before(Mark(exprs[0]), Body(strs[1..], exprs[1..], t)))
  }

  predicate IsName(x: string) { x != "" && StartsName(x[0]) && forall k :: 0 <= k < |x| ==> InName(x[k]) }

  /** A name, or a group that closes where it ends. */
  ghost predicate Expression(e: string) { IsName(e) || Closes(e) }

  /** A name has no opening brace in front of it and no character of a name behind it. */
  predicate NameFits(before: string, x: string, behind: string) {
    IsName(x) ==> (before != "" ==> before[|before| - 1] != '{') && (behind != "" ==> !InName(behind[0]))
  }

  predicate AllFit(strs: seq<string>, exprs: seq<string>)
    requires |strs| == |exprs| + 1
    decreases |exprs|
  {
    exprs == [] || (NameFits(strs[0], exprs[0], strs[1]) && AllFit(strs[1..], exprs[1..]))
  }

  // ----- One chunk -----

  function ItemOf(c: char): Item { if Letter(c).Some? then Esc(Letter(c).value) else Plain(c) }

  function Items(s: string): seq<Item> { if s == "" then [] else [ItemOf(s[0])] + Items(s[1..]) }

  /** The last brace of s does not open a group with what stands behind it. */
  predicate Joins(s: string, t: Text) { s != "" && s[|s| - 1] == '{' ==> !(t.Ch? && t.c == '$') }

  lemma {:induction false} EscapedIsSplit(s: string, t: Text)
    requires Joins(s, t)
    ensures Split(Escaped(s, t)) == Items(s) + Split(t)
    decreases |s|
  {
    if s == "" {
      assert [] + Split(t) == Split(t);
    } else {
      EscapedIsSplit(s[1..], t);
      assert Split(Escaped(s, t)) == [ItemOf(s[0])] + Split(Escaped(s[1..], t));
      Regroup([ItemOf(s[0])], Items(s[1..]), Split(t));
    }
  }

  lemma ItemIsChar(c: char)
    ensures (ItemOf(c).Esc? || ItemOf(c).Plain?) && Literal(ItemOf(c)) == [c]
  {
  }

  lemma CharItem(c: char, more: seq<Item>, chunk: string)
    ensures Strs([ItemOf(c)] + more, chunk) == Strs(more, chunk + [c]) && Exprs([ItemOf(c)] + more) == Exprs(more)
  {
    ItemIsChar(c);
    ItemStep(ItemOf(c), more, chunk);
  }

  /** The items of a chunk stand for its characters. */
  lemma {:induction false} ItemsStandFor(s: string, items: seq<Item>, chunk: string)
    ensures Strs(Items(s) + items, chunk) == Strs(items, chunk + s) && Exprs(Items(s) + items) == Exprs(items)
    decreases |s|
  {
    if s == "" {
      assert [] + items == items && chunk + "" == chunk;
    } else {
      var more := Items(s[1..]) + items;
      Regroup([ItemOf(s[0])], Items(s[1..]), items);
      CharItem(s[0], more, chunk);
      ItemsStandFor(s[1..], items, chunk + [s[0]]);
      Regroup(chunk, [s[0]], s[1..]);
      assert [s[0]] + s[1..] == s;
    }
  }

  /** Any text escaped is read back as one chunk. */
  lemma TextReadsBack(s: string)
    ensures Strs(Split(Escaped(s, End)), "") == [s] && Exprs(Split(Escaped(s, End))) == []
  {
    EscapedIsSplit(s, End);
    ItemsStandFor(s, [], "");
    assert "" + s == s;
  }

  /** A backslash stands for itself in front of any other character. */
  lemma BackslashIsKept(c: char, t: Text, chunk: string)
    requires forall d :: Letter(d) != Some(c)
    ensures var items := Split(Ch('\\', Ch(c, t)));
            Strs(items, chunk) == Strs(Split(t), chunk + ['\\', c]) && Exprs(items) == Exprs(Split(t))
  {
    NoLetter(c);
    ItemStep(Esc(c), Split(t), chunk);
  }

  lemma NoLetter(c: char)
    requires forall d :: Letter(d) != Some(c)
    ensures Unescape(c) == ['\\', c]
  {
    assert Letter('\n') != Some(c) && Letter('\t') != Some(c) && Letter('\r') != Some(c) && Letter('\0') != Some(c);
    assert Letter('"') != Some(c) && Letter('\\') != Some(c) && Letter('$') != Some(c);
  }

  /** The escapes C has too mean the same there. */
  lemma SameAsInC(c: char)
    ensures CLiteral.SimpleEscape(c).Some? ==> Unescape(c) == [CLiteral.SimpleEscape(c).value]
    ensures CLiteral.SimpleEscape(c).None? ==> Unescape(c) == ['\\', c] || Unescape(c) == ['\0'] || Unescape(c) == ['$']
  {
  }

  // ----- One expression -----

  lemma {:induction false} NameIsTaken(x: string, t: Text)
    requires (forall k :: 0 <= k < |x| ==> InName(x[k])) && !(t.Ch? && InName(t.c))
    ensures NameOf(Before(x, t)) == Part(x, t)
    decreases |x|
  {
    if x != "" {
      NameIsTaken(x[1..], t);
      assert x == [x[0]] + x[1..];
    }
  }

  lemma MarkInFront(e: string, t: Text)
    requires Expression(e)
    ensures Before(Mark(e), t) == if IsName(e) then Ch('$', Before(e, t)) else Ch('{', Before(e, Ch('}', t)))
  {
    if IsName(e) {
      assert e[0] != '$' && Mark(e) == ['$'] + e;
      OneInFront('$', e, t);
    } else {
      assert e[0] == '$' && Mark(e) == Source(Group(e));
      SourceInFront(Group(e), t);
    }
  }

  lemma MarkIsSplit(e: string, t: Text)
    requires Expression(e) && (IsName(e) ==> !(t.Ch? && InName(t.c)))
    ensures Split(Before(Mark(e), t)) == [if IsName(e) then Name(e) else Group(e)] + Split(t)
  {
    MarkInFront(e, t);
    if IsName(e) {
      NameIsTaken(e, t);
      assert OpensName(Ch('$', Before(e, t)));
    } else {
      assert Braced(Before(e, Ch('}', t)), 1) == Some(Part(e, t));
      assert OpensGroup(Ch('{', Before(e, Ch('}', t))));
    }
  }

  // ----- Chunks and expressions -----

  lemma FirstOfBody(strs: seq<string>, exprs: seq<string>)
    requires |strs| == |exprs| + 1 && forall e :: e in exprs ==> Expression(e)
    ensures var t := Body(strs, exprs, End); (strs[0] != "" ==> !InName(strs[0][0])) ==> !(t.Ch? && InName(t.c))
    ensures var t := Body(strs, exprs, End); strs[0] != "" && InName(strs[0][0]) ==> t == Ch(strs[0][0], t.Next())
  {
    if strs[0] == "" && exprs != [] {
      assert exprs[0] in exprs;
      MarkInFront(exprs[0], Body(strs[1..], exprs[1..], End));
    }
  }

  /** The chunks and expressions of a body are the given ones. */
  predicate ReadsBack(strs: seq<string>, exprs: seq<string>)
    requires |strs| == |exprs| + 1
  {
    var items := Split(Body(strs, exprs, End)); Strs(items, "") == strs && Exprs(items) == exprs
  }

  lemma HeadIsRead(strs: seq<string>, exprs: seq<string>)
    requires |strs| == |exprs| + 1 && (forall e :: e in exprs ==> Expression(e)) && exprs != [] && NameFits(strs[0], exprs[0], strs[1])
    ensures var items, more := Split(Body(strs, exprs, End)), Split(Body(strs[1..], exprs[1..], End));
            Strs(items, "") == [strs[0]] + Strs(more, "") && Exprs(items) == [exprs[0]] + Exprs(more)
  {
    var e, t := exprs[0], Body(strs[1..], exprs[1..], End);
    assert e in exprs;
    var i := if IsName(e) then Name(e) else Group(e);
    MarkInFront(e, t);
    EscapedIsSplit(strs[0], Before(Mark(e), t));
    FirstOfBody(strs[1..], exprs[1..]);
    MarkIsSplit(e, t);
    ItemsStandFor(strs[0], [i] + Split(t), "");
    assert "" + strs[0] == strs[0];
    ItemStep(i, Split(t), strs[0]);
  }

  lemma {:induction false} EscapedAppend(a: string, b: string, t: Text)
    ensures Escaped(a + b, t) == Escaped(a, Escaped(b, t))
    decreases |a|
  {
    if a == "" { assert a + b == b; } else {
      assert (a + b)[1..] == a[1..] + b;
      EscapedAppend(a[1..], b, t);
    }
  }

  /** A brace in front of a name opens a group, and the chunk ends in front of it. */
  lemma BraceOpensGroup(u: string, t: Text)
    requires t.Ch? && t.c == '$'
    ensures var strs := Strs(Split(Escaped(u + "{", t)), ""); strs != [] && strs[0] == u
  {
    var open := Ch('{', t);
    EscapedAppend(u, "{", t);
    assert "{"[1..] == "" && Escaped("{", t) == open;
    EscapedIsSplit(u, open);
    var i, more := Split(open)[0], Split(open)[1..];
    assert Split(open) == [i] + more && (i.Group? || i.Unclosed?);
    ItemsStandFor(u, [i] + more, "");
    assert "" + u == u;
    ItemStep(i, more, u);
  }

  lemma {:induction false} NameRunsOn(x: string, t: Text)
    requires (forall k :: 0 <= k < |x| ==> InName(x[k])) && t.Ch? && InName(t.c)
    ensures |NameOf(Before(x, t)).src| > |x|
    decreases |x|
  {
    if x != "" { NameRunsOn(x[1..], t); }
  }

  /** A name takes a character of a name behind it in. */
  lemma NameIsLonger(s: string, x: string, t: Text)
    requires IsName(x) && (s != "" ==> s[|s| - 1] != '{') && t.Ch? && InName(t.c)
    ensures var exprs := Exprs(Split(Escaped(s, Ch('$', Before(x, t))))); exprs != [] && |exprs[0]| > |x|
  {
    var dollar := Ch('$', Before(x, t));
    EscapedIsSplit(s, dollar);
    assert OpensName(dollar);
    var n := NameOf(Before(x, t));
    NameRunsOn(x, t);
    ItemsStandFor(s, [Name(n.src)] + Split(n.rest), "");
    ItemStep(Name(n.src), Split(n.rest), s);
  }

  lemma MisfitIsLost(strs: seq<string>, exprs: seq<string>)
    requires |strs| == |exprs| + 1 && (forall e :: e in exprs ==> Expression(e)) && exprs != [] && !NameFits(strs[0], exprs[0], strs[1])
    ensures !ReadsBack(strs, exprs)
  {
    var s, e, t := strs[0], exprs[0], Body(strs[1..], exprs[1..], End);
    MarkInFront(e, t);
    if s != "" && s[|s| - 1] == '{' {
      var u := s[..|s| - 1];
      assert s == u + "{";
      BraceOpensGroup(u, Ch('$', Before(e, t)));
    } else {
      FirstOfBody(strs[1..], exprs[1..]);
      NameIsLonger(s, e, t);
    }
  }

  /** Any chunks, escaped, with any names and closing groups between them are read back, if and only if no
      name stands directly behind an opening brace or directly in front of a character of a name. */
  lemma {:induction false} PartsReadBackIff(strs: seq<string>, exprs: seq<string>)
    requires |strs| == |exprs| + 1 && forall e :: e in exprs ==> Expression(e)
    ensures ReadsBack(strs, exprs) <==> AllFit(strs, exprs)
    decreases |exprs|
  {
    if exprs == [] {
      TextReadsBack(strs[0]);
    } else if NameFits(strs[0], exprs[0], strs[1]) {
      HeadIsRead(strs, exprs);
      PartsReadBackIff(strs[1..], exprs[1..]);
      assert strs == [strs[0]] + strs[1..] && exprs == [exprs[0]] + exprs[1..];
    } else {
      MisfitIsLost(strs, exprs);
    }
  }

  /** A group fits anywhere, so any chunks can be written with groups between them. */
  lemma GroupsAlwaysFit(strs: seq<string>, exprs: seq<string>)
    requires |strs| == |exprs| + 1 && forall e :: e in exprs ==> Closes(e)
    ensures ReadsBack(strs, exprs)
  {
    PartsReadBackIff(strs, exprs);
    GroupsFit(strs, exprs);
  }

  lemma {:induction false} GroupsFit(strs: seq<string>, exprs: seq<string>)
    requires |strs| == |exprs| + 1 && forall e :: e in exprs ==> Closes(e)
    ensures AllFit(strs, exprs)
    decreases |exprs|
  {
    if exprs != [] {
      assert Closes(exprs[0]);
      GroupsFit(strs[1..], exprs[1..]);
    }
  }

  // ----- The scan -----

  lemma {:induction false} EscapedIsScanned(s: string, t: Text)
    requires Joins(s, t) && ScanBody(t).Some?
    ensures ScanBody(Escaped(s, t)).Some? && ScanBody(Escaped(s, t)).value.rest == ScanBody(t).value.rest
    decreases |s|
  {
    if s != "" { EscapedIsScanned(s[1..], t); }
  }

  lemma {:induction false} NameIsScanned(x: string, t: Text)
    requires (forall k :: 0 <= k < |x| ==> InName(x[k])) && ScanBody(t).Some?
    ensures ScanBody(Before(x, t)).Some? && ScanBody(Before(x, t)).value.rest == ScanBody(t).value.rest
    decreases |x|
  {
    if x != "" { NameIsScanned(x[1..], t); }
  }

  lemma MarkIsScanned(e: string, t: Text)
    requires Expression(e) && ScanBody(t).Some?
    ensures ScanBody(Before(Mark(e), t)).Some? && ScanBody(Before(Mark(e), t)).value.rest == ScanBody(t).value.rest
  {
    MarkInFront(e, t);
    if IsName(e) { NameIsScanned(e, t); } else {
      assert Braced(Before(e, Ch('}', t)), 1) == Some(Part(e, t));
      assert OpensGroup(Ch('{', Before(e, Ch('}', t))));
    }
  }

  /** The lexer's scan of what is written so goes up to the closing quote, whatever stands behind it. */
  lemma {:induction false} ScanEndsAtQuote(strs: seq<string>, exprs: seq<string>, rest: Text)
    requires |strs| == |exprs| + 1 && (forall e :: e in exprs ==> Expression(e)) && AllFit(strs, exprs)
    ensures var r := ScanBody(Body(strs, exprs, Ch('"', rest))); r.Some? && r.value.rest == rest
    decreases |exprs|
  {
    if exprs == [] {
      EscapedIsScanned(strs[0], Ch('"', rest));
    } else {
      var t := Body(strs[1..], exprs[1..], Ch('"', rest));
      assert exprs[0] in exprs;
      ScanEndsAtQuote(strs[1..], exprs[1..], rest);
      MarkInFront(exprs[0], t);
      MarkIsScanned(exprs[0], t);
      EscapedIsScanned(strs[0], Before(Mark(exprs[0]), t));
    }
  }

  // ----- Which expressions close -----

  /** A piece of an expression: a character, a string, or pieces in braces. */
  datatype Bit = One(c: char) | Str(q: char, s: string) | Nest(bits: seq<Bit>)

  /** Nothing in s ends a string opened by q. */
  predicate Inside(s: string, q: char) {
    || s == ""
    || (s[0] == '\\' && |s| > 1 && Inside(s[2..], q))
    || (s[0] != '\\' && s[0] != q && Inside(s[1..], q))
  }

  predicate Proper(b: Bit)
    decreases b, 1
  {
    match b
    case One(c) => c != '"' && c != '\'' && c != '{' && c != '}'
    case Str(q, s) => (q == '"' || q == '\'') && Inside(s, q)
    case Nest(bits) => AllProper(bits)
  }

  predicate AllProper(bits: seq<Bit>)
    decreases bits, 0
  {
    bits == [] || (Proper(bits[0]) && AllProper(bits[1..]))
  }

  function Spelled(b: Bit): string
    decreases b, 1
  {
    match b
    case One(c) => [c]
    case Str(q, s) => [q] + s + [q]
    case Nest(bits) => "{" + AllSpelled(bits) + "}"
  }

  function AllSpelled(bits: seq<Bit>): string
    decreases bits, 0
  {
    if bits == [] then "" else Spelled(bits[0]) + AllSpelled(bits[1..])
  }

  lemma {:induction false} StringIsPassed(s: string, q: char, t: Text)
    requires Inside(s, q) && q != '\\'
    ensures Quoted(Before(s, Ch(q, t)), q) == Some(Part(s, t))
    decreases |s|
  {
    if s != "" {
      if s[0] == '\\' {
        StringIsPassed(s[2..], q, t);
        assert s == [s[0], s[1]] + s[2..];
        TwoInFront(s[0], s[1], s[2..], Ch(q, t));
      } else {
        StringIsPassed(s[1..], q, t);
        assert s == [s[0]] + s[1..];
      }
    }
  }

  lemma {:induction false} BitIsPassed(b: Bit, t: Text, depth: nat)
    requires Proper(b) && depth > 0
    ensures Braced(Before(Spelled(b), t), depth) == Grow(Spelled(b), Braced(t, depth))
    decreases b, 1
  {
    match b
    case One(c) => OneInFront(c, "", t);
    case Str(q, s) =>
      StringInFront(q, s, "", t);
      assert [q] + s + [q] + "" == [q] + s + [q];
      StringIsPassed(s, q, t);
    case Nest(bits) =>
      var inside, close := AllSpelled(bits), Ch('}', t);
      SourceInFront(Group(inside), t);
      BitsArePassed(bits, close, depth + 1);
      assert Braced(close, depth + 1) == Grow("}", Braced(t, depth));
      GrowTwice("{", inside, Braced(close, depth + 1));
      GrowTwice("{" + inside, "}", Braced(t, depth));
  }

  lemma {:induction false} BitsArePassed(bits: seq<Bit>, t: Text, depth: nat)
    requires AllProper(bits) && depth > 0
    ensures Braced(Before(AllSpelled(bits), t), depth) == Grow(AllSpelled(bits), Braced(t, depth))
    decreases bits, 0
  {
    if bits == [] {
      if Braced(t, depth).Some? { assert "" + Braced(t, depth).value.src == Braced(t, depth).value.src; }
    } else {
      var one, more := Spelled(bits[0]), AllSpelled(bits[1..]);
      BeforeAppend(one, more, t);
      BitIsPassed(bits[0], Before(more, t), depth);
      BitsArePassed(bits[1..], t, depth);
      GrowTwice(one, more, Braced(t, depth));
    }
  }

  /** Whatever is made of characters, strings and braces in pairs closes where it ends, braces and quotes in
      its strings and whatever stands behind it notwithstanding. */
  lemma BalancedCloses(bits: seq<Bit>)
    requires AllProper(bits) && AllSpelled(bits) != "" && AllSpelled(bits)[0] == '$'
    ensures Closes(AllSpelled(bits))
  {
    var src := AllSpelled(bits);
    forall more ensures Braced(Before(src, Ch('}', more)), 1) == Some(Part(src, more)) {
      BitsArePassed(bits, Ch('}', more), 1);
      assert src + "" == src;
    }
  }

  lemma {:induction false} QuotedIsInside(t: Text, q: char)
    requires Quoted(t, q).Some? && q != '\\'
    ensures Inside(Quoted(t, q).value.src, q)
    decreases t.Len()
  {
    if t.c == q {
    } else if t.c == '\\' {
      QuotedIsInside(t.Next().Next(), q);
      var s := Quoted(t.rest.rest, q).value.src;
      assert ([t.c, t.rest.c] + s)[2..] == s;
    } else {
      QuotedIsInside(t.rest, q);
      var s := Quoted(t.rest, q).value.src;
      assert ([t.c] + s)[1..] == s;
    }
  }

  /** Pieces with closing braces between them. */
  function Joined(bs: seq<seq<Bit>>): string
    requires bs != []
  {
    if |bs| == 1 then AllSpelled(bs[0]) else AllSpelled(bs[0]) + ("}" + Joined(bs[1..]))
  }

  predicate ProperRows(bs: seq<seq<Bit>>) { forall k :: 0 <= k < |bs| ==> AllProper(bs[k]) }

  lemma OneBitMore(b: Bit, bs: seq<seq<Bit>>) returns (r: seq<seq<Bit>>)
    requires bs != [] && Proper(b) && ProperRows(bs)
    ensures |r| == |bs| && ProperRows(r) && Joined(r) == Spelled(b) + Joined(bs)
  {
    var bits := [b] + bs[0];
    assert bits[1..] == bs[0];
    r := [bits] + bs[1..];
    assert r[1..] == bs[1..];
    if |bs| > 1 { Regroup(Spelled(b), AllSpelled(bs[0]), "}" + Joined(bs[1..])); }
  }

  /** The first two rows were the inside of braces and what stands behind them. */
  lemma BracesJoin(bs: seq<seq<Bit>>) returns (r: seq<seq<Bit>>)
    requires |bs| > 1 && ProperRows(bs)
    ensures |r| == |bs| - 1 && ProperRows(r) && Joined(r) == "{" + Joined(bs)
  {
    r := OneBitMore(Nest(bs[0]), bs[1..]);
    var inside, behind := AllSpelled(bs[0]), Joined(bs[1..]);
    assert ("{" + inside + "}") + behind == "{" + (inside + ("}" + behind));
  }

  lemma RowEnds(bs: seq<seq<Bit>>) returns (r: seq<seq<Bit>>)
    requires bs != [] && ProperRows(bs)
    ensures |r| == |bs| + 1 && ProperRows(r) && Joined(r) == "}" + Joined(bs)
  {
    r := [[]] + bs;
    assert r[1..] == bs && AllSpelled(r[0]) == "";
    assert "" + ("}" + Joined(bs)) == "}" + Joined(bs);
  }

  lemma {:induction false} BracedIsBalanced(t: Text, depth: nat) returns (bs: seq<seq<Bit>>)
    requires Braced(t, depth).Some? && depth > 0
    ensures |bs| == depth && ProperRows(bs) && Joined(bs) == Braced(t, depth).value.src
    decreases t.Len()
  {
    if t.c == '"' || t.c == '\'' {
      var s := Quoted(t.rest, t.c).value;
      QuotedIsInside(t.rest, t.c);
      bs := BracedIsBalanced(s.rest, depth);
      bs := OneBitMore(Str(t.c, s.src), bs);
    } else if t.c == '}' && depth == 1 {
      bs := [[]];
    } else if t.c == '}' {
      bs := BracedIsBalanced(t.rest, depth - 1);
      bs := RowEnds(bs);
    } else if t.c == '{' {
      bs := BracedIsBalanced(t.rest, depth + 1);
      bs := BracesJoin(bs);
    } else {
      bs := BracedIsBalanced(t.rest, depth);
      bs := OneBitMore(One(t.c), bs);
    }
  }

  /** The expressions a group can hold are exactly those that begin with a dollar sign and are made of
      characters, strings and braces in pairs. */
  lemma ClosesIffBalanced(src: string)
    ensures Closes(src) <==> src != "" && src[0] == '$' && exists bits :: AllProper(bits) && AllSpelled(bits) == src
  {
    if Closes(src) {
      assert Braced(Before(src, Ch('}', End)), 1) == Some(Part(src, End));
      var bs := BracedIsBalanced(Before(src, Ch('}', End)), 1);
      assert AllProper(bs[0]) && AllSpelled(bs[0]) == src;
    }
    if bits :| src != "" && src[0] == '$' && AllProper(bits) && AllSpelled(bits) == src { BalancedCloses(bits); }
  }
}
