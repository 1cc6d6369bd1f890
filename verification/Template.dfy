/** Double-quoted strings: the lexer's scan for the closing quote, the splitter that takes the body apart,
    and the code generator's count of the parts. */
module Template {
  import opened Basics
  import opened Texts

  const APOSTROPHE: char := '\''

  predicate StartsName(c: char) { 'a' <= c <= 'z' || 'A' <= c <= 'Z' || c == '_' }

  predicate InName(c: char) { StartsName(c) || '0' <= c <= '9' }

  // ----- Braced expressions: nested braces and strings -----

  /** What was passed over, and what stands behind its end mark. */
  datatype Part = Part(src: string, rest: Text)

  function Grow(s: string, r: Option<Part>): Option<Part> {
    if r.Some? then Some(Part(s + r.value.src, r.value.rest)) else None
  }

  /** Inside a string: up to its closing quote q. */
  function Quoted(t: Text, q: char): (r: Option<Part>)
    ensures r.Some? ==> r.value.rest.Len() < t.Len()
  {
    if t.End? then None
    else if t.c == q then Some(Part("", t.rest))
    else if t.c == BACKSLASH then
      if t.rest.End? then None else Grow([t.c, t.rest.c], Quoted(t.rest.rest, q))
    else Grow([t.c], Quoted(t.rest, q))
  }

  /** Inside `depth` open braces: up to the brace that closes the outermost. */
  function Braced(t: Text, depth: nat): (r: Option<Part>)
    ensures r.Some? ==> r.value.rest.Len() < t.Len()
    decreases t.Len()
  {
    if t.End? then None
    else if t.c == QUOTE || t.c == APOSTROPHE then
      var s := Quoted(t.rest, t.c);
      if s.None? then None else Grow([t.c] + s.value.src + [t.c], Braced(s.value.rest, depth))
    else if t.c == '}' && depth <= 1 then Some(Part("", t.rest))
    else Grow([t.c], Braced(t.rest, if t.c == '{' then depth + 1 else if t.c == '}' then depth - 1 else depth))
  }

  // ----- The items of a body -----

  datatype Item = Esc(c: char) | Plain(c: char) | Name(x: string) | Group(src: string) | Unclosed(src: string)

  function Source(i: Item): string {
    match i
    case Esc(c) => [BACKSLASH, c]
    case Plain(c) => [c]
    case Name(x) => "$" + x
    case Group(src) => "{" + src + "}"
    case Unclosed(src) => "{" + src
  }

  function Sources(items: seq<Item>): string { if items == [] then "" else Source(items[0]) + Sources(items[1..]) }

  predicate OpensGroup(t: Text) { t.Ch? && t.c == '{' && t.rest.Ch? && t.rest.c == '$' }

  predicate OpensName(t: Text) { t.Ch? && t.c == '$' && t.rest.Ch? && StartsName(t.rest.c) }

  /** A scanned string: its items, whether the scan has seen anything to interpolate, and what stands
      behind the closing quote. */
  datatype Scan = Scan(items: seq<Item>, interp: bool, rest: Text)

  function Prepend(i: Item, interp: bool, r: Option<Scan>): Option<Scan> {
    if r.Some? then Some(Scan([i] + r.value.items, interp || r.value.interp, r.value.rest)) else None
  }

  /** The lexer's scan behind an opening quote; it does not look for names. */
  function ScanBody(t: Text): Option<Scan>
    decreases t.Len()
  {
    if t.End? then None
    else if t.c == QUOTE then Some(Scan([], false, t.rest))
    else if t.c == BACKSLASH then
      if t.rest.End? then None else Prepend(Esc(t.rest.c), false, ScanBody(t.Next().Next()))
    else if OpensGroup(t) then
      var g := Braced(t.rest, 1);
      if g.None? then None else Prepend(Group(g.value.src), true, ScanBody(g.value.rest))
    else Prepend(Plain(t.c), OpensName(t), ScanBody(t.rest))
  }

  /** The characters of a name. */
  function NameOf(t: Text): (r: Part)
    ensures r.rest.Len() <= t.Len()
  {
    if t.Ch? && InName(t.c) then var p := NameOf(t.rest); Part([t.c] + p.src, p.rest) else Part("", t)
  }

  /** All that is left. */
  function All(t: Text): string { if t.End? then "" else [t.c] + All(t.rest) }

  /** The splitter's view of a body. */
  function Split(t: Text): seq<Item>
    decreases t.Len()
  {
    if t.End? then []
    else if t.c == BACKSLASH && t.rest.Ch? then [Esc(t.rest.c)] + Split(t.Next().Next())
    else if OpensName(t) then var n := NameOf(t.rest); [Name(n.src)] + Split(n.rest)
    else if OpensGroup(t) then
      var g := Braced(t.rest, 1);
      if g.None? then [Unclosed(All(t.rest))] else [Group(g.value.src)] + Split(g.value.rest)
    else [Plain(t.c)] + Split(t.rest)
  }

  // ----- What is passed over does not depend on what stands behind -----

  lemma {:induction false} QuotedIsLocal(t: Text, q: char, more: Text)
    requires Quoted(t, q).Some? && q != BACKSLASH
    ensures var p := Quoted(t, q).value;
      t == Before(p.src, Ch(q, p.rest)) && Quoted(Before(p.src, Ch(q, more)), q) == Some(Part(p.src, more))
    decreases t.Len()
  {
    if t.c == q {
    } else if t.c == BACKSLASH {
      QuotedIsLocal(t.Next().Next(), q, more);
      var p := Quoted(t.rest.rest, q).value;
      TwoInFront(t.c, t.rest.c, p.src, Ch(q, p.rest));
      TwoInFront(t.c, t.rest.c, p.src, Ch(q, more));
    } else {
      QuotedIsLocal(t.rest, q, more);
      var p := Quoted(t.rest, q).value;
      OneInFront(t.c, p.src, Ch(q, p.rest));
      OneInFront(t.c, p.src, Ch(q, more));
    }
  }

  lemma OneInFront(c: char, s: string, t: Text)
    ensures Before([c] + s, t) == Ch(c, Before(s, t))
  {
    assert ([c] + s)[1..] == s;
  }

  lemma TwoInFront(c: char, d: char, s: string, t: Text)
    ensures Before([c, d] + s, t) == Ch(c, Ch(d, Before(s, t)))
  {
    BeforeAppend([c, d], s, t);
    BeforeTwo(c, d, Before(s, t));
  }

  lemma StringInFront(q: char, s: string, more: string, t: Text)
    ensures Before([q] + s + [q] + more, t) == Ch(q, Before(s, Ch(q, Before(more, t))))
  {
    assert [q] + s + [q] + more == [q] + (s + ([q] + more));
    OneInFront(q, s + ([q] + more), t);
    BeforeAppend(s, [q] + more, t);
    OneInFront(q, more, t);
  }

  lemma {:induction false} BracedIsLocal(t: Text, depth: nat, more: Text)
    requires Braced(t, depth).Some?
    ensures var p := Braced(t, depth).value;
      t == Before(p.src, Ch('}', p.rest)) && Braced(Before(p.src, Ch('}', more)), depth) == Some(Part(p.src, more))
    decreases t.Len()
  {
    if t.c == QUOTE || t.c == APOSTROPHE {
      var s := Quoted(t.rest, t.c).value;
      BracedIsLocal(s.rest, depth, more);
      var p := Braced(s.rest, depth).value;
      QuotedIsLocal(t.rest, t.c, Before(p.src, Ch('}', more)));
      StringInFront(t.c, s.src, p.src, Ch('}', p.rest));
      StringInFront(t.c, s.src, p.src, Ch('}', more));
    } else if t.c == '}' && depth <= 1 {
    } else {
      var d := if t.c == '{' then depth + 1 else if t.c == '}' then depth - 1 else depth;
      BracedIsLocal(t.rest, d, more);
      var p := Braced(t.rest, d).value;
      OneInFront(t.c, p.src, Ch('}', p.rest));
      OneInFront(t.c, p.src, Ch('}', more));
    }
  }

  // ----- The two scanners agree -----

  /** The characters of a name at the front of a list of items. */
  function Run(items: seq<Item>): (r: string)
    ensures |r| <= |items|
  {
    if items != [] && items[0].Plain? && InName(items[0].c) then [items[0].c] + Run(items[1..]) else ""
  }

  predicate NameComes(items: seq<Item>) {
    |items| > 1 && items[0] == Plain('$') && items[1].Plain? && StartsName(items[1].c)
  }

  /** The same items with a dollar sign and the name behind it taken together. */
  function WithNames(items: seq<Item>): seq<Item>
    decreases |items|
  {
    if items == [] then []
    else if NameComes(items) then [Name(Run(items[1..]))] + WithNames(items[1..][|Run(items[1..])|..])
    else [items[0]] + WithNames(items[1..])
  }

  /** A group that closes where it ends. */
  ghost predicate Closes(src: string) {
    src != "" && src[0] == '$' && forall more :: Braced(Before(src, Ch('}', more)), 1) == Some(Part(src, more))
  }

  ghost predicate Scanned(items: seq<Item>) {
    items == [] || (Scanned(items[1..]) && ScannedItem(items[0], |items| > 1 && items[1] == Plain('$')))
  }

  ghost predicate ScannedItem(i: Item, dollarNext: bool) {
    || i.Esc?
    || (i.Plain? && i.c != QUOTE && i.c != BACKSLASH && !(i.c == '{' && dollarNext))
    || (i.Group? && Closes(i.src))
  }

  lemma SourceInFront(i: Item, t: Text)
    ensures i.Esc? ==> Before(Source(i), t) == Ch(BACKSLASH, Ch(i.c, t))
    ensures i.Plain? ==> Before(Source(i), t) == Ch(i.c, t)
    ensures i.Group? ==> Before(Source(i), t) == Ch('{', Before(i.src, Ch('}', t)))
  {
    match i
    case Esc(c) => BeforeTwo(BACKSLASH, c, t);
    case Plain(c) => assert [c][1..] == "";
    case Group(src) =>
      assert Source(i) == ['{'] + (src + ['}']);
      OneInFront('{', src + ['}'], t);
      BeforeAppend(src, ['}'], t);
      assert ['}'][1..] == "";
    case _ =>
  }

  /** What the scan of a terminated string passes over is the source of its items, up to the closing quote;
      every braced expression in it closes inside it. */
  lemma {:induction false} ScanIsScanned(t: Text)
    requires ScanBody(t).Some?
    ensures var r := ScanBody(t).value; Scanned(r.items) && t == Before(Sources(r.items), Ch(QUOTE, r.rest))
    decreases t.Len()
  {
    if t.c != QUOTE {
      if t.c == BACKSLASH {
        ScanIsScanned(t.Next().Next());
        SourceInFront(Esc(t.rest.c), t.rest.rest);
        ScanStep(t, Esc(t.rest.c), false, t.rest.rest);
      } else if OpensGroup(t) {
        var g := Braced(t.rest, 1).value;
        GroupCloses(t.rest);
        ScanIsScanned(g.rest);
        SourceInFront(Group(g.src), g.rest);
        ScanStep(t, Group(g.src), true, g.rest);
      } else {
        ScanIsScanned(t.rest);
        SourceInFront(Plain(t.c), t.rest);
        ScanStep(t, Plain(t.c), OpensName(t), t.rest);
        NotDollar(t);
      }
    }
  }

  lemma GroupCloses(t: Text)
    requires t.Ch? && t.c == '$' && Braced(t, 1).Some?
    ensures Closes(Braced(t, 1).value.src) && t == Before(Braced(t, 1).value.src, Ch('}', Braced(t, 1).value.rest))
  {
    var src := Braced(t, 1).value.src;
    BracedIsLocal(t, 1, End);
    forall more ensures Braced(Before(src, Ch('}', more)), 1) == Some(Part(src, more)) { BracedIsLocal(t, 1, more); }
  }

  /** A brace that opens no group is not followed by a dollar sign. */
  lemma NotDollar(t: Text)
    requires ScanBody(t).Some? && t.Ch? && t.c != QUOTE && t.c != BACKSLASH && !OpensGroup(t) && ScanBody(t.rest).Some?
    ensures var items := ScanBody(t).value.items; !(t.c == '{' && |items| > 1 && items[1] == Plain('$'))
  {
    var r := ScanBody(t.rest).value;
    if r.items != [] && r.items[0] == Plain('$') { assert t.rest.c == '$'; }
  }

  lemma ScanStep(t: Text, i: Item, interp: bool, rest: Text)
    requires ScanBody(rest).Some? && ScanBody(t) == Prepend(i, interp, ScanBody(rest))
    requires t == Before(Source(i), rest)
    requires rest == Before(Sources(ScanBody(rest).value.items), Ch(QUOTE, ScanBody(rest).value.rest))
    ensures t == Before(Sources(ScanBody(t).value.items), Ch(QUOTE, ScanBody(t).value.rest))
    ensures ScanBody(t).value.items[1..] == ScanBody(rest).value.items
  {
    var r := ScanBody(rest).value;
    assert ([i] + r.items)[1..] == r.items;
    BeforeAppend(Source(i), Sources(r.items), Ch(QUOTE, r.rest));
  }

  lemma ScannedFrom(items: seq<Item>, n: nat)
    requires Scanned(items) && n <= |items|
    ensures Scanned(items[n..])
    decreases n
  {
    if n == 0 { assert items[0..] == items; } else {
      ScannedFrom(items[1..], n - 1);
      assert items[1..][n - 1..] == items[n..];
    }
  }

  function Written(items: seq<Item>): Text { Open(Sources(items)) }

  lemma WrittenStep(items: seq<Item>)
    requires items != []
    ensures Written(items) == Before(Source(items[0]), Written(items[1..]))
  {
    BeforeAppend(Source(items[0]), Sources(items[1..]), End);
  }

  /** The text t begins with the source of an item, and more stands behind it. */
  predicate BeginsWith(t: Text, i: Item, more: Text) {
    && t.Ch?
    && (i.Plain? ==> t.c == i.c && t.rest == more)
    && (i.Esc? ==> t.c == BACKSLASH && t.rest == Ch(i.c, more))
    && (i.Group? ==> t.c == '{' && t.rest == Before(i.src, Ch('}', more)))
  }

  /** The first character of what is written tells what the first item is. */
  lemma FirstChar(items: seq<Item>)
    requires Scanned(items)
    ensures items == [] ==> Written(items) == End
    ensures items != [] ==> BeginsWith(Written(items), items[0], Written(items[1..]))
  {
    if items != [] {
      WrittenStep(items);
      SourceInFront(items[0], Written(items[1..]));
    }
  }

  lemma {:induction false} NameIsRun(items: seq<Item>)
    requires Scanned(items)
    ensures NameOf(Written(items)) == Part(Run(items), Written(items[|Run(items)|..]))
    decreases |items|
  {
    FirstChar(items);
    if items != [] && items[0].Plain? && InName(items[0].c) {
      NameIsRun(items[1..]);
      assert items[1..][|Run(items[1..])|..] == items[|Run(items)|..];
    } else {
      assert items[0..] == items;
    }
  }

  /** Where a name or a group begins is the same in the text and in the items. */
  lemma SameOpenings(items: seq<Item>)
    requires Scanned(items)
    ensures OpensName(Written(items)) <==> NameComes(items)
    ensures OpensGroup(Written(items)) <==> items != [] && items[0].Group?
  {
    FirstChar(items);
    if items != [] { FirstChar(items[1..]); }
  }

  /** The splitter finds the items of the scan, with the names taken together. */
  lemma {:induction false} SplitAgrees(items: seq<Item>)
    requires Scanned(items)
    ensures Split(Written(items)) == WithNames(items)
    decreases |items|
  {
    var t := Written(items);
    FirstChar(items);
    SameOpenings(items);
    if NameComes(items) {
      NameIsRun(items[1..]);
      ScannedFrom(items[1..], |Run(items[1..])|);
      SplitAgrees(items[1..][|Run(items[1..])|..]);
    } else if items != [] {
      SplitAgrees(items[1..]);
      if items[0].Group? {
        var src := items[0].src;
        assert Braced(Before(src, Ch('}', Written(items[1..]))), 1) == Some(Part(src, Written(items[1..])));
      }
    }
  }

  predicate Interpolates(i: Item) { i.Name? || i.Group? }

  /** The scan has seen something to interpolate exactly when the splitter finds some. */
  lemma {:induction false} InterpAgrees(t: Text)
    requires ScanBody(t).Some?
    ensures var r := ScanBody(t).value; r.interp <==> exists k :: 0 <= k < |r.items| && OpensItem(r.items[k..])
    decreases t.Len()
  {
    if t.c != QUOTE {
      var next := if t.c == BACKSLASH then t.Next().Next() else if OpensGroup(t) then Braced(t.rest, 1).value.rest else t.rest;
      InterpAgrees(next);
      ScanIsScanned(t);
      FlagStep(t, next);
    }
  }

  predicate OpensItem(items: seq<Item>) { NameComes(items) || (items != [] && items[0].Group?) }

  lemma FlagStep(t: Text, next: Text)
    requires ScanBody(t).Some? && ScanBody(next).Some? && t.c != QUOTE
    requires next == if t.c == BACKSLASH then t.Next().Next() else if OpensGroup(t) then Braced(t.rest, 1).value.rest else t.rest
    requires var r := ScanBody(next).value; r.interp <==> exists k :: 0 <= k < |r.items| && OpensItem(r.items[k..])
    ensures var r := ScanBody(t).value; r.interp <==> exists k :: 0 <= k < |r.items| && OpensItem(r.items[k..])
  {
    var r, r' := ScanBody(t).value, ScanBody(next).value;
    assert r.items[1..] == r'.items && r.items[0..] == r.items;
    FlagHere(t, next);
    if k :| 0 <= k < |r.items| && OpensItem(r.items[k..]) {
      if k > 0 { assert r.items[k..] == r'.items[k - 1..]; }
    }
    if k :| 0 <= k < |r'.items| && OpensItem(r'.items[k..]) { assert r.items[k + 1..] == r'.items[k..]; }
  }

  lemma FlagHere(t: Text, next: Text)
    requires ScanBody(t).Some? && ScanBody(next).Some? && t.c != QUOTE
    requires next == if t.c == BACKSLASH then t.Next().Next() else if OpensGroup(t) then Braced(t.rest, 1).value.rest else t.rest
    ensures var r := ScanBody(t).value; r.interp <==> OpensItem(r.items) || ScanBody(next).value.interp
  {
    var r, r' := ScanBody(t).value, ScanBody(next).value;
    if t.c != BACKSLASH && !OpensGroup(t) && r'.items != [] && r'.items[0].Plain? { assert t.rest.c == r'.items[0].c; }
  }

  // ----- Chunks and expressions -----

  function Unescape(c: char): string {
    if c == 'n' then "\n" else if c == 't' then "\t" else if c == 'r' then "\r" else if c == '0' then [0 as char]
    else if c == QUOTE || c == BACKSLASH || c == '$' then [c] else [BACKSLASH, c]
  }

  function Literal(i: Item): string { if i.Esc? then Unescape(i.c) else Source(i) }

  function ExprOf(i: Item): string
    requires Interpolates(i) || i.Unclosed?
  {
    if i.Name? then i.x else i.src
  }

  function Strs(items: seq<Item>, chunk: string): seq<string> {
    if items == [] then [chunk]
    else if items[0].Esc? || items[0].Plain? then Strs(items[1..], chunk + Literal(items[0]))
    else [chunk] + Strs(items[1..], "")
  }

  function Exprs(items: seq<Item>): seq<string> {
    if items == [] then [] else (if items[0].Esc? || items[0].Plain? then [] else [ExprOf(items[0])]) + Exprs(items[1..])
  }

  /** There is one more chunk than there are expressions. */
  lemma {:induction false} OneMoreChunk(items: seq<Item>, chunk: string)
    ensures |Strs(items, chunk)| == |Exprs(items)| + 1
    decreases |items|
  {
    if items != [] {
      OneMoreChunk(items[1..], chunk + Literal(items[0]));
      OneMoreChunk(items[1..], "");
    }
  }

  /** An expression as it stands in the body: a braced one begins with its dollar sign. */
  function Mark(e: string): string { if e != "" && e[0] == '$' then "{" + e + "}" else "$" + e }

  function Interleave(strs: seq<string>, exprs: seq<string>): string
    requires |strs| == |exprs| + 1
  {
    if exprs == [] then strs[0] else strs[0] + (Mark(exprs[0]) + Interleave(strs[1..], exprs[1..]))
  }

  ghost predicate Rebuildable(items: seq<Item>) {
    forall i :: i in items ==> i.Plain? || (i.Name? && i.x != "" && i.x[0] != '$') || (i.Group? && i.src != "" && i.src[0] == '$')
  }

  /** Chunks and expressions put together again are the body, when it has no escapes. */
  lemma {:induction false} InterleaveRebuilds(items: seq<Item>, chunk: string)
    requires Rebuildable(items)
    ensures |Strs(items, chunk)| == |Exprs(items)| + 1
    ensures Interleave(Strs(items, chunk), Exprs(items)) == chunk + Sources(items)
    decreases |items|
  {
    OneMoreChunk(items, chunk);
    if items == [] {
      assert chunk + "" == chunk;
    } else {
      var i, more := items[0], Sources(items[1..]);
      assert i in items;
      if i.Plain? {
        InterleaveRebuilds(items[1..], chunk + [i.c]);
        Append3(chunk, [i.c], more);
        assert [] + Exprs(items[1..]) == Exprs(items[1..]);
      } else {
        InterleaveRebuilds(items[1..], "");
        assert "" + more == more;
        InterleaveStep(chunk, ExprOf(i), Strs(items[1..], ""), Exprs(items[1..]));
      }
    }
  }

  lemma Append3(a: string, b: string, c: string)
    ensures (a + b) + c == a + (b + c)
  {
  }

  lemma InterleaveStep(chunk: string, e: string, strs: seq<string>, exprs: seq<string>)
    requires |strs| == |exprs| + 1
    ensures Interleave([chunk] + strs, [e] + exprs) == chunk + (Mark(e) + Interleave(strs, exprs))
  {
    assert ([chunk] + strs)[1..] == strs && ([e] + exprs)[1..] == exprs;
  }

  lemma {:induction false} RunIsName(items: seq<Item>)
    requires NameComes(items)
    ensures var x := Run(items[1..]); x != "" && x[0] != '$' && |x| < |items|
    ensures Sources(items) == "$" + Run(items[1..]) + Sources(items[1..][|Run(items[1..])|..])
  {
    RunIsSource(items[1..]);
  }

  lemma {:induction false} RunIsSource(items: seq<Item>)
    ensures Sources(items) == Run(items) + Sources(items[|Run(items)|..])
    decreases |items|
  {
    if items != [] && items[0].Plain? && InName(items[0].c) {
      RunIsSource(items[1..]);
      assert items[1..][|Run(items[1..])|..] == items[|Run(items)|..];
      var r, more := Run(items[1..]), Sources(items[|Run(items)|..]);
      assert [items[0].c] + (r + more) == ([items[0].c] + r) + more;
    } else {
      assert items[0..] == items && "" + Sources(items) == Sources(items);
    }
  }

  /** Taking names together changes no source, and what is left can be rebuilt when nothing is escaped. */
  lemma {:induction false} NamesKeepSource(items: seq<Item>)
    requires Scanned(items)
    ensures Sources(WithNames(items)) == Sources(items)
    ensures (forall i :: i in items ==> !i.Esc?) ==> Rebuildable(WithNames(items))
    ensures forall i :: i in WithNames(items) ==> !i.Unclosed?
    decreases |items|
  {
    if NameComes(items) {
      var x := Run(items[1..]);
      var rest := items[1..][|x|..];
      RunIsName(items);
      ScannedFrom(items[1..], |x|);
      NamesKeepSource(rest);
    } else if items != [] {
      NamesKeepSource(items[1..]);
    }
  }

  lemma {:induction false} OpensIffExprs(items: seq<Item>)
    requires Scanned(items)
    ensures (exists k :: 0 <= k < |items| && OpensItem(items[k..])) <==> Exprs(WithNames(items)) != []
    decreases |items|
  {
    if items != [] {
      assert items[0..] == items;
      if !OpensItem(items) {
        OpensIffExprs(items[1..]);
        if k :| 0 <= k < |items| && OpensItem(items[k..]) { assert items[k..] == items[1..][k - 1..]; }
        if k :| 0 <= k < |items[1..]| && OpensItem(items[1..][k..]) { assert items[1..][k..] == items[k + 1..]; }
      }
    }
  }

  /** For every terminated template: what the lexer passed over up to the closing quote, split again, gives
      only groups that close inside it, one more chunk than expressions, and, when the body has no escapes,
      chunks and expressions from which the body can be put together again. */
  lemma ScannerAndSplitterAgree(t: Text, body: string)
    requires ScanBody(t).Some? && body == Sources(ScanBody(t).value.items)
    ensures t == Before(body, Ch(QUOTE, ScanBody(t).value.rest))
    ensures ScanBody(t).value.interp <==> Exprs(Split(Open(body))) != []
    ensures var items := Split(Open(body));
      && (forall i :: i in items ==> !i.Unclosed?)
      && |Strs(items, "")| == |Exprs(items)| + 1
      && (BACKSLASH !in body ==> Interleave(Strs(items, ""), Exprs(items)) == body)
  {
    var scanned := ScanBody(t).value.items;
    ScanIsScanned(t);
    SplitAgrees(scanned);
    NamesKeepSource(scanned);
    InterpAgrees(t);
    OpensIffExprs(scanned);
    OneMoreChunk(WithNames(scanned), "");
    if BACKSLASH !in body {
      NoEscapes(scanned);
      InterleaveRebuilds(WithNames(scanned), "");
      assert "" + body == body;
    }
  }

  lemma {:induction false} EscapesShow(items: seq<Item>, i: Item)
    requires i in items && i.Esc?
    ensures BACKSLASH in Sources(items)
    decreases |items|
  {
    if items[0] == i { assert Sources(items)[0] == BACKSLASH; } else {
      var more := Sources(items[1..]);
      EscapesShow(items[1..], i);
      var k :| 0 <= k < |more| && more[k] == BACKSLASH;
      assert Sources(items)[|Source(items[0])| + k] == BACKSLASH;
    }
  }

  lemma NoEscapes(items: seq<Item>)
    requires BACKSLASH !in Sources(items)
    ensures forall i :: i in items ==> !i.Esc?
  {
    forall i | i in items ensures !i.Esc? {
      if i.Esc? { EscapesShow(items, i); }
    }
  }

  // ----- The code generator's count -----

  /** A literal part or an interpolated one. */
  datatype Piece = Lit(s: string) | Expr(e: string)

  method EmitTpl(strs: seq<string>, exprs: seq<string>) returns (declared: nat, parts: seq<Piece>)
    requires exprs != []
    ensures declared == |exprs| + NonEmpty(strs)
    ensures parts == Parts(strs, exprs)
  {
    declared := |exprs|;
    var rest := strs;
    while rest != []
      invariant declared + NonEmpty(rest) == |exprs| + NonEmpty(strs)
      decreases |rest|
    {
      if rest[0] != "" { declared := declared + 1; }
      rest := rest[1..];
    }
    parts := EmitParts(strs, exprs);
  }

  method EmitParts(strs: seq<string>, exprs: seq<string>) returns (parts: seq<Piece>)
    ensures parts == Parts(strs, exprs)
  {
    parts := [];
    var ss, es := strs, exprs;
    while es != []
      invariant Parts(strs, exprs) == parts + Parts(ss, es)
      decreases |es|
    {
      PartsStep(ss, es);
      var s := if ss != [] then ss[0] else "";
      var here := Chunk(s) + [Expr(es[0])];
      ss, es := if ss != [] then ss[1..] else [], es[1..];
      Regroup(parts, here, Parts(ss, es));
      parts := parts + here;
    }
    var tail := if ss != [] then ss[0] else "";
    assert Parts(ss, []) == Chunk(tail) + [] == Chunk(tail);
    parts := parts + Chunk(tail);
  }

  function Chunk(s: string): seq<Piece> { if s != "" then [Lit(s)] else [] }

  lemma PartsStep(ss: seq<string>, es: seq<string>)
    requires es != []
    ensures Parts(ss, es) == (Chunk(if ss != [] then ss[0] else "") + [Expr(es[0])]) + Parts(if ss != [] then ss[1..] else [], es[1..])
  {
    Regroup(Chunk(if ss != [] then ss[0] else ""), [Expr(es[0])], Parts(if ss != [] then ss[1..] else [], es[1..]));
  }

  function NonEmpty(strs: seq<string>): nat {
    if strs == [] then 0 else (if strs[0] != "" then 1 else 0) + NonEmpty(strs[1..])
  }

  function Parts(strs: seq<string>, exprs: seq<string>): seq<Piece> {
    var s := if strs != [] then strs[0] else "";
    Chunk(s) + if exprs == [] then [] else [Expr(exprs[0])] + Parts(if strs != [] then strs[1..] else [], exprs[1..])
  }

  /** The declared number of parts is the number of parts, exactly when no chunk beyond the first after the
      last expression holds anything; with one more chunk than expressions that is always so. */
  lemma {:induction false} CountIsRight(strs: seq<string>, exprs: seq<string>)
    ensures |Parts(strs, exprs)| == |exprs| + NonEmpty(if |strs| <= |exprs| then strs else strs[..|exprs| + 1])
    ensures |strs| <= |exprs| + 1 ==> |exprs| + NonEmpty(strs) == |Parts(strs, exprs)|
    decreases |exprs|
  {
    var used := if |strs| <= |exprs| then strs else strs[..|exprs| + 1];
    if |strs| <= |exprs| + 1 { assert used == strs; }
    if exprs != [] {
      var more := if strs != [] then strs[1..] else [];
      CountIsRight(more, exprs[1..]);
      if strs != [] { assert used[1..] == if |more| <= |exprs| - 1 then more else more[..|exprs|]; }
    } else if strs != [] {
      assert used == [strs[0]] && used[1..] == [];
    }
  }

  /** The parts of a template are counted right. */
  lemma TemplateCountIsRight(items: seq<Item>)
    ensures |Exprs(items)| + NonEmpty(Strs(items, "")) == |Parts(Strs(items, ""), Exprs(items))|
  {
    OneMoreChunk(items, "");
    CountIsRight(Strs(items, ""), Exprs(items));
  }

  // ----- The scanners as they run; a cursor is kept as the text from it on -----

  lemma GrowTwice(a: string, b: string, r: Option<Part>)
    ensures Grow(a, Grow(b, r)) == Grow(a + b, r) && Grow("", r) == r
  {
    if r.Some? {
      Append3(a, b, r.value.src);
      assert "" + r.value.src == r.value.src;
    }
  }

  /** Behind the closing quote q, or the end. */
  method SkipQuoted(t: Text, q: char) returns (r: Text)
    ensures r == if Quoted(t, q).Some? then Quoted(t, q).value.rest else End
  {
    r := t;
    ghost var src := "";
    GrowTwice("", "", Quoted(t, q));
    while r.Ch? && r.c != q
      invariant Quoted(t, q) == Grow(src, Quoted(r, q))
      decreases r.Len()
    {
      if r.c == BACKSLASH && r.rest.Ch? {
        GrowTwice(src, [r.c, r.rest.c], Quoted(r.Next().Next(), q));
        src := src + [r.c, r.rest.c];
      } else if r.c != BACKSLASH {
        GrowTwice(src, [r.c], Quoted(r.Next(), q));
        src := src + [r.c];
      }
      if r.c == BACKSLASH { r := r.Next(); }
      r := r.Next();
    }
    r := r.Next();
  }

  /** Behind the brace that closes the group, or the end. */
  method SkipBraces(t: Text) returns (r: Text)
    ensures r == if Braced(t, 1).Some? then Braced(t, 1).value.rest else End
  {
    r := t;
    var depth: nat := 1;
    ghost var src := "";
    GrowTwice("", "", Braced(t, 1));
    while r.Ch? && depth > 0
      invariant if depth == 0 then r.Ch? && Braced(t, 1) == Some(Part(src, r.rest)) else Braced(t, 1) == Grow(src, Braced(r, depth))
      decreases r.Len(), depth
    {
      if r.c == QUOTE || r.c == APOSTROPHE {
        var q := r.c;
        ghost var s := Quoted(r.rest, q);
        if s.Some? {
          GrowTwice(src, [q] + s.value.src + [q], Braced(s.value.rest, depth));
          src := src + ([q] + s.value.src + [q]);
        }
        r := SkipQuoted(r.rest, q);
      } else {
        ghost var here := r;
        if r.c == '{' { depth := depth + 1; }
        else if r.c == '}' { depth := depth - 1; }
        if depth > 0 {
          GrowTwice(src, [here.c], Braced(here.rest, depth));
          src := src + [here.c];
          r := r.Next();
        } else {
          assert src + "" == src;
        }
      }
    }
    r := r.Next();
  }

  /** The scan behind an opening quote; it fails when the string is not terminated. */
  method LexString(t: Text) returns (ok: bool, interp: bool, rest: Text)
    ensures ok <==> ScanBody(t).Some?
    ensures ok ==> interp == ScanBody(t).value.interp && rest == ScanBody(t).value.rest
  {
    interp, rest := false, t;
    while rest.Ch? && rest.c != QUOTE
      invariant ScanBody(t).Some? <==> ScanBody(rest).Some?
      invariant ScanBody(t).Some? ==> ScanBody(t).value.rest == ScanBody(rest).value.rest
      invariant ScanBody(t).Some? ==> ScanBody(t).value.interp == (interp || ScanBody(rest).value.interp)
      decreases rest.Len()
    {
      if rest.c == BACKSLASH {
        rest := rest.Next().Next();
      } else if OpensGroup(rest) {
        interp := true;
        rest := SkipBraces(rest.rest);
      } else {
        if OpensName(rest) { interp := true; }
        rest := rest.Next();
      }
    }
    ok := rest.Ch?;
    rest := rest.Next();
  }

  /** The characters of a nested string up to its closing quote, or all that is left. */
  method TakeQuoted(t: Text, q: char) returns (closed: bool, src: string, r: Text)
    ensures closed == Quoted(t, q).Some?
    ensures if closed then Part(src, r) == Quoted(t, q).value else src == All(t) && r == End
  {
    closed, src, r := false, "", t;
    GrowTwice("", "", Quoted(t, q));
    while r.Ch? && r.c != q
      invariant Quoted(t, q) == Grow(src, Quoted(r, q)) && All(t) == src + All(r)
      decreases r.Len()
    {
      var two := r.c == BACKSLASH && r.rest.Ch?;
      var here := if two then [r.c, r.rest.c] else [r.c];
      var next := if two then r.Next().Next() else r.Next();
      QuotedStep(r, q, here, next);
      GrowTwice(src, here, Quoted(next, q));
      Regroup(src, here, All(next));
      src := src + here;
      r := next;
    }
    Regroup(src, "", "");
    closed := r.Ch?;
    r := r.Next();
  }

  lemma QuotedStep(r: Text, q: char, here: string, next: Text)
    requires r.Ch? && r.c != q
    requires var two := r.c == BACKSLASH && r.rest.Ch?;
             here == (if two then [r.c, r.rest.c] else [r.c]) && next == if two then r.Next().Next() else r.Next()
    ensures Quoted(r, q) == Grow(here, Quoted(next, q)) && All(r) == here + All(next)
  {
    if r.c == BACKSLASH && r.rest.Ch? { assert All(r) == [r.c] + ([r.rest.c] + All(next)); }
  }

  /** The source of a group and what stands behind its closing brace; all that is left, when it does not close. */
  method TakeBraces(t: Text) returns (closed: bool, src: string, r: Text)
    ensures closed == Braced(t, 1).Some?
    ensures if closed then Part(src, r) == Braced(t, 1).value else src == All(t) && r == End
  {
    closed, src, r := false, "", t;
    var depth: nat := 1;
    GrowTwice("", "", Braced(t, 1));
    while r.Ch? && depth > 0
      invariant if depth == 0 then r.Ch? && Braced(t, 1) == Some(Part(src, r.rest)) else Braced(t, 1) == Grow(src, Braced(r, depth))
      invariant All(t) == src + All(r)
      decreases r.Len(), depth
    {
      if r.c == QUOTE || r.c == APOSTROPHE {
        var ended, inner, next := TakeQuoted(r.rest, r.c);
        var here := [r.c] + inner + if ended then [r.c] else "";
        StringStep(r, depth, ended, inner, next);
        if ended { GrowTwice(src, here, Braced(next, depth)); }
        Regroup(src, here, All(next));
        src := src + here;
        r := next;
      } else {
        var c := r.c;
        if c == '{' { depth := depth + 1; }
        else if c == '}' { depth := depth - 1; }
        if depth > 0 {
          GrowTwice(src, [c], Braced(r.rest, depth));
          Regroup(src, [c], All(r.rest));
          src := src + [c];
          r := r.rest;
        } else {
          assert src + "" == src;
        }
      }
    }
    Regroup(src, "", "");
    closed := r.Ch?;
    r := r.Next();
  }

  lemma StringStep(r: Text, depth: nat, ended: bool, inner: string, next: Text)
    requires r.Ch? && (r.c == QUOTE || r.c == APOSTROPHE) && ended == Quoted(r.rest, r.c).Some?
    requires if ended then Part(inner, next) == Quoted(r.rest, r.c).value else inner == All(r.rest) && next == End
    ensures ended ==> Braced(r, depth) == Grow([r.c] + inner + [r.c], Braced(next, depth))
    ensures !ended ==> Braced(r, depth) == None
    ensures All(r) == [r.c] + inner + (if ended then [r.c] else "") + All(next)
  {
    if ended {
      QuotedIsLocal(r.rest, r.c, End);
      AllBefore(inner, Ch(r.c, next));
      assert [r.c] + (inner + ([r.c] + All(next))) == [r.c] + inner + [r.c] + All(next);
    } else {
      assert [r.c] + inner + "" + "" == [r.c] + inner;
    }
  }

  lemma {:induction false} AllBefore(s: string, t: Text)
    ensures All(Before(s, t)) == s + All(t)
    decreases |s|
  {
    if s == "" { assert "" + All(t) == All(t); } else {
      AllBefore(s[1..], t);
      assert s == [s[0]] + s[1..];
      Regroup([s[0]], s[1..], All(t));
    }
  }

  method TakeName(t: Text) returns (x: string, r: Text)
    ensures Part(x, r) == NameOf(t)
  {
    x, r := "", t;
    while r.Ch? && InName(r.c)
      invariant NameOf(t) == Part(x + NameOf(r).src, NameOf(r).rest)
      decreases r.Len()
    {
      Append3(x, [r.c], NameOf(r.rest).src);
      x := x + [r.c];
      r := r.rest;
    }
    assert x + "" == x;
  }

  /** Chunks and expressions of a body. */
  method LexTemplateParts(b: Text) returns (strs: seq<string>, exprs: seq<string>)
    ensures strs == Strs(Split(b), "") && exprs == Exprs(Split(b))
  {
    strs, exprs := [], [];
    var chunk, r := "", b;
    while r.Ch?
      invariant Strs(Split(b), "") == strs + Strs(Split(r), chunk) && Exprs(Split(b)) == exprs + Exprs(Split(r))
      decreases r.Len()
    {
      ghost var items := Split(r);
      var i: Item, next: Text;
      if r.c == BACKSLASH && r.rest.Ch? {
        i, next := Esc(r.rest.c), r.Next().Next();
      } else if OpensName(r) {
        var x;
        x, next := TakeName(r.rest);
        i := Name(x);
      } else if OpensGroup(r) {
        var closed, src;
        closed, src, next := TakeBraces(r.rest);
        i := if closed then Group(src) else Unclosed(src);
      } else {
        i, next := Plain(r.c), r.rest;
      }
      assert items == [i] + Split(next);
      ItemStep(i, Split(next), chunk);
      if i.Esc? || i.Plain? {
        chunk := chunk + Literal(i);
      } else {
        Regroup(strs, [chunk], Strs(Split(next), ""));
        Regroup(exprs, [ExprOf(i)], Exprs(Split(next)));
        strs, exprs, chunk := strs + [chunk], exprs + [ExprOf(i)], "";
      }
      r := next;
    }
    strs := strs + [chunk];
    assert exprs + [] == exprs;
  }

  lemma ItemStep(i: Item, rest: seq<Item>, chunk: string)
    ensures var items := [i] + rest;
      if i.Esc? || i.Plain? then Strs(items, chunk) == Strs(rest, chunk + Literal(i)) && Exprs(items) == Exprs(rest)
      else Strs(items, chunk) == [chunk] + Strs(rest, "") && Exprs(items) == [ExprOf(i)] + Exprs(rest)
  {
    assert ([i] + rest)[1..] == rest;
    assert [] + Exprs(rest) == Exprs(rest);
  }
}
