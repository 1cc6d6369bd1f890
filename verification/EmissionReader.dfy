/** What the emitted lines say. A reader that knows nothing but the lines themselves, their braces and the
    numbers of the helpers gets the code back from the buffers. */
module EmissionReader {
  import opened Basics
  import opened SourceLanguage
  import opened TargetLanguage
  import opened Lowering
  import opened LoweringProof
  import opened Emission
  import opened EmissionLimits

  /** What was read, and the lines that are left in each buffer. */
  datatype Read<T> = Read(value: T, rest: Buffers) | Unreadable

  // ----- The reader -----

  function Size(b: Buffers): nat {
    |b[0]| + |b[1]| + |b[2]| + |b[3]| + |b[4]| + |b[5]| + |b[6]| + |b[7]| + |b[8]|
  }

  predicate Next(b: Buffers, h: nat, l: CLine) { h < BUFFERS && b[h] != [] && b[h][0] == l }

  function Pop(b: Buffers, h: nat): (r: Buffers)
    requires h < BUFFERS && b[h] != []
    ensures Size(r) < Size(b)
  {
    b[h := b[h][1..]]
  }

  predicate StartsTree(l: CLine) {
    l.Simple? || l.OpenIf? || l.OpenWhile? || l.OpenDo? || l.OpenFor? || l.OpenForeach? || l.Open? || l.TryOpen?
  }

  predicate TreeComes(b: Buffers, h: nat) { h < BUFFERS && b[h] != [] && StartsTree(b[h][0]) }

  predicate Shorter<T>(r: Read<T>, b: Buffers) { r.Read? ==> Size(r.rest) < Size(b) }

  predicate NotLonger<T>(r: Read<T>, b: Buffers) { r.Read? ==> Size(r.rest) <= Size(b) }

  /** The statements of buffer h up to a line that starts none. */
  function ReadSeq(b: Buffers, h: nat): (r: Read<seq<Code>>)
    ensures NotLonger(r, b)
    decreases Size(b), 1
  {
    if !TreeComes(b, h) then Read([], b) else
    var t := ReadTree(b, h);
    if t.Unreadable? then Unreadable else
    var more := ReadSeq(t.rest, h);
    if more.Read? then Read([t.value] + more.value, more.rest) else Unreadable
  }

  function ReadTree(b: Buffers, h: nat): (r: Read<Code>)
    requires TreeComes(b, h)
    ensures Shorter(r, b)
    decreases Size(b), 0
  {
    var after := Pop(b, h);
    match b[h][0]
    case Simple(op) => Read(Line(op), after)
    case OpenIf(c) => ReadIf(c, after, h)
    case OpenWhile(c) => var body := ReadBraced(after, h); if body.Read? then Read(While(c, body.value), body.rest) else Unreadable
    case OpenDo =>
      var body := ReadSeq(after, h);
      if body.Read? && h < BUFFERS && body.rest[h] != [] && body.rest[h][0].CloseDo?
      then Read(Do(body.value, body.rest[h][0].c), Pop(body.rest, h)) else Unreadable
    case OpenFor(cond) => var body := ReadBraced(after, h); if body.Read? then Read(For(cond, body.value), body.rest) else Unreadable
    case OpenForeach(e, v) =>
      var body := ReadBraced(after, h); if body.Read? then Read(Foreach(e, v, body.value), body.rest) else Unreadable
    case Open => var body := ReadBraced(after, h); if body.Read? then Read(Block(body.value), body.rest) else Unreadable
    case TryOpen(id) => ReadTry(id, after, h)
  }

  /** Statements and a closing brace. */
  function ReadBraced(b: Buffers, h: nat): (r: Read<seq<Code>>)
    ensures Shorter(r, b)
    decreases Size(b), 2
  {
    var body := ReadSeq(b, h);
    if body.Read? && Next(body.rest, h, Close) then Read(body.value, Pop(body.rest, h)) else Unreadable
  }

  /** A conditional has a second branch only behind an else. */
  function ReadIf(c: ExprId, b: Buffers, h: nat): (r: Read<Code>)
    ensures Shorter(r, b)
    decreases Size(b), 2
  {
    var thn := ReadSeq(b, h);
    if thn.Unreadable? then Unreadable
    else if Next(thn.rest, h, Close) then Read(If(c, thn.value, false, []), Pop(thn.rest, h))
    else if Next(thn.rest, h, Else) then
      var els := ReadBraced(Pop(thn.rest, h), h);
      if els.Read? then Read(If(c, thn.value, true, els.value), els.rest) else Unreadable
    else Unreadable
  }

  /** The definition of a helper. */
  function ReadHelper(head: CLine, b: Buffers, h: nat): (r: Read<seq<Code>>)
    ensures Shorter(r, b)
    decreases Size(b), 3
  {
    if Next(b, h, head) then ReadBraced(Pop(b, h), h) else Unreadable
  }

  /** The helpers of a try statement are defined in the next buffer, under its number. */
  function ReadTry(id: nat, b: Buffers, h: nat): (r: Read<Code>)
    ensures Shorter(r, b)
    decreases Size(b), 4
  {
    var body := ReadHelper(BodyHead(id), b, h + 1);
    if body.Unreadable? then Unreadable else
    var handler := ReadHelper(CatchHead(id), body.rest, h + 1);
    if handler.Unreadable? || !Next(handler.rest, h, TryRun(id)) then Unreadable else
    var fin := ReadSeq(Pop(handler.rest, h), h);
    if fin.Unreadable? then Unreadable else
    var ds := ReadDispatches(id, fin.rest, h);
    if Next(ds.rest, h, Close) then Read(TryBlock(id, body.value, handler.value, fin.value, ds.value), Pop(ds.rest, h))
    else Unreadable
  }

  function ReadDispatches(id: nat, b: Buffers, h: nat): (r: Read<seq<Dispatch>>)
    ensures r.Read? && NotLonger(r, b)
    decreases Size(b)
  {
    if h < BUFFERS && b[h] != [] && b[h][0].Dispatched? && b[h][0].id == id then
      var more := ReadDispatches(id, Pop(b, h), h);
      Read([b[h][0].d] + more.value, more.rest)
    else Read([], b)
  }

  // ----- The lines of code in front of others -----

  function LineAhead(h: nat, l: CLine, r: Buffers): Buffers
    requires h < BUFFERS
  {
    r[h := [l] + r[h]]
  }

  function Ahead(ts: seq<Code>, h: nat, r: Buffers): Buffers
    requires h < BUFFERS
    decreases ts, 0
  {
    if ts == [] then r else TreeAhead(ts[0], h, Ahead(ts[1..], h, r))
  }

  function Framed(h: nat, open: CLine, body: seq<Code>, close: CLine, r: Buffers): Buffers
    requires h < BUFFERS
    decreases body, 1
  {
    LineAhead(h, open, Ahead(body, h, LineAhead(h, close, r)))
  }

  function TreeAhead(t: Code, h: nat, r: Buffers): Buffers
    requires h < BUFFERS
    decreases t, 1
  {
    match t
    case Line(op) => LineAhead(h, Simple(op), r)
    case If(c, thn, hasElse, els) =>
      var second := Ahead(els, h, LineAhead(h, Close, r));
      LineAhead(h, OpenIf(c), Ahead(thn, h, if hasElse then LineAhead(h, Else, second) else second))
    case While(c, body) => Framed(h, OpenWhile(c), body, Close, r)
    case Do(body, c) => Framed(h, OpenDo, body, CloseDo(c), r)
    case For(cond, body) => Framed(h, OpenFor(cond), body, Close, r)
    case Foreach(e, v, body) => Framed(h, OpenForeach(e, v), body, Close, r)
    case Block(body) => Framed(h, Open, body, Close, r)
    case TryBlock(id, body, handler, fin, ds) =>
      var call := LineAhead(h, TryRun(id), Ahead(fin, h, DispatchesAhead(id, ds, h, LineAhead(h, Close, r))));
      LineAhead(h, TryOpen(id),
        Framed(Inner(h), BodyHead(id), body, Close, Framed(Inner(h), CatchHead(id), handler, Close, call)))
  }

  function DispatchesAhead(id: nat, ds: seq<Dispatch>, h: nat, r: Buffers): Buffers
    requires h < BUFFERS
  {
    if ds == [] then r else LineAhead(h, Dispatched(id, ds[0]), DispatchesAhead(id, ds[1..], h, r))
  }

  // ----- They are the lines the emitter writes -----

  lemma LineIsAhead(h: nat, l: CLine, r: Buffers, k: nat)
    requires h < BUFFERS && k < BUFFERS
    ensures LineAhead(h, l, r)[k] == Here(h == k, l) + r[k]
  {
  }

  lemma {:induction false} SeqIsAhead(ts: seq<Code>, h: nat, r: Buffers, k: nat)
    requires h < BUFFERS && k < BUFFERS
    ensures Ahead(ts, h, r)[k] == LinesSeq(ts, h, k) + r[k]
    decreases ts, 0
  {
    if ts != [] {
      var more := Ahead(ts[1..], h, r);
      SeqIsAhead(ts[1..], h, r, k);
      TreeIsAhead(ts[0], h, more, k);
      Regroup(Lines(ts[0], h, k), LinesSeq(ts[1..], h, k), r[k]);
    }
  }

  lemma {:induction false} FramedIsAhead(h: nat, open: CLine, body: seq<Code>, close: CLine, r: Buffers, k: nat)
    requires h < BUFFERS && k < BUFFERS
    ensures Framed(h, open, body, close, r)[k] == (Here(h == k, open) + LinesSeq(body, h, k) + Here(h == k, close)) + r[k]
    decreases body, 1
  {
    var x := LineAhead(h, close, r);
    LineIsAhead(h, close, r, k);
    SeqIsAhead(body, h, x, k);
    LineIsAhead(h, open, Ahead(body, h, x), k);
    Regroup(Here(h == k, open), LinesSeq(body, h, k), Here(h == k, close) + r[k]);
    Regroup(Here(h == k, open) + LinesSeq(body, h, k), Here(h == k, close), r[k]);
  }

  lemma {:induction false} TreeIsAhead(t: Code, h: nat, r: Buffers, k: nat)
    requires h < BUFFERS && k < BUFFERS
    ensures TreeAhead(t, h, r)[k] == Lines(t, h, k) + r[k]
    decreases t, 3
  {
    match t
    case Line(op) => LineIsAhead(h, Simple(op), r, k);
    case If(_, _, _, _) => IfIsAhead(t, h, r, k);
    case While(c, body) => FramedIsAhead(h, OpenWhile(c), body, Close, r, k);
    case Do(body, c) => FramedIsAhead(h, OpenDo, body, CloseDo(c), r, k);
    case For(cond, body) => FramedIsAhead(h, OpenFor(cond), body, Close, r, k);
    case Foreach(e, v, body) => FramedIsAhead(h, OpenForeach(e, v), body, Close, r, k);
    case Block(body) => FramedIsAhead(h, Open, body, Close, r, k);
    case TryBlock(_, _, _, _, _) => TryIsAhead(t, h, r, k);
  }

  lemma {:induction false} IfIsAhead(t: Code, h: nat, r: Buffers, k: nat)
    requires t.If? && h < BUFFERS && k < BUFFERS
    ensures TreeAhead(t, h, r)[k] == Lines(t, h, k) + r[k]
    decreases t, 2
  {
    var x := LineAhead(h, Close, r);
    var second := Ahead(t.els, h, x);
    var els := if t.hasElse then LineAhead(h, Else, second) else second;
    LineIsAhead(h, Close, r, k);
    SeqIsAhead(t.els, h, x, k);
    if t.hasElse { LineIsAhead(h, Else, second, k); }
    SeqIsAhead(t.thn, h, els, k);
    LineIsAhead(h, OpenIf(t.c), Ahead(t.thn, h, els), k);
    FiveAhead(Here(h == k, OpenIf(t.c)), LinesSeq(t.thn, h, k), Here(t.hasElse && h == k, Else), LinesSeq(t.els, h, k), Here(h == k, Close), r[k]);
  }

  lemma FiveAhead(a: seq<CLine>, b: seq<CLine>, c: seq<CLine>, d: seq<CLine>, e: seq<CLine>, r: seq<CLine>)
    ensures a + (b + (c + (d + (e + r)))) == (a + b + c + d + e) + r
  {
    Regroup(a + b + c + d, e, r);
    Regroup(a + b + c, d, e + r);
    Regroup(a + b, c, d + (e + r));
    Regroup(a, b, c + (d + (e + r)));
  }

  lemma {:induction false} DispatchesAreAhead(id: nat, ds: seq<Dispatch>, h: nat, r: Buffers, k: nat)
    requires h < BUFFERS && k < BUFFERS
    ensures DispatchesAhead(id, ds, h, r)[k] == DispatchLines(id, ds, h == k) + r[k]
  {
    if ds != [] {
      var more := DispatchesAhead(id, ds[1..], h, r);
      DispatchesAreAhead(id, ds[1..], h, r, k);
      LineIsAhead(h, Dispatched(id, ds[0]), more, k);
      Regroup(Here(h == k, Dispatched(id, ds[0])), DispatchLines(id, ds[1..], h == k), r[k]);
    }
  }

  lemma {:induction false} CallIsAhead(id: nat, fin: seq<Code>, ds: seq<Dispatch>, h: nat, r: Buffers, k: nat)
    requires h < BUFFERS && k < BUFFERS
    ensures LineAhead(h, TryRun(id), Ahead(fin, h, DispatchesAhead(id, ds, h, LineAhead(h, Close, r))))[k] == CallLines(id, fin, ds, h, k) + r[k]
    decreases fin, 1
  {
    var x := LineAhead(h, Close, r);
    var y := DispatchesAhead(id, ds, h, x);
    LineIsAhead(h, Close, r, k);
    DispatchesAreAhead(id, ds, h, x, k);
    SeqIsAhead(fin, h, y, k);
    LineIsAhead(h, TryRun(id), Ahead(fin, h, y), k);
    var a, b, c, d := Here(h == k, TryRun(id)), LinesSeq(fin, h, k), DispatchLines(id, ds, h == k), Here(h == k, Close);
    Regroup(a + b + c, d, r[k]);
    Regroup(a + b, c, d + r[k]);
    Regroup(a, b, c + (d + r[k]));
  }

  lemma {:induction false} TryIsAhead(t: Code, h: nat, r: Buffers, k: nat)
    requires t.TryBlock? && h < BUFFERS && k < BUFFERS
    ensures TreeAhead(t, h, r)[k] == Lines(t, h, k) + r[k]
    decreases t, 2
  {
    var g, id := Inner(h), t.id;
    var call := LineAhead(h, TryRun(id), Ahead(t.fin, h, DispatchesAhead(id, t.dispatch, h, LineAhead(h, Close, r))));
    var handler := Framed(g, CatchHead(id), t.handler, Close, call);
    var body := Framed(g, BodyHead(id), t.body, Close, handler);
    CallIsAhead(id, t.fin, t.dispatch, h, r, k);
    FramedIsAhead(g, CatchHead(id), t.handler, Close, call, k);
    FramedIsAhead(g, BodyHead(id), t.body, Close, handler, k);
    LineIsAhead(h, TryOpen(id), body, k);
    var open, x, y := Here(h == k, TryOpen(id)), HelperLines(BodyHead(id), t.body, g, k), HelperLines(CatchHead(id), t.handler, g, k);
    var z := CallLines(id, t.fin, t.dispatch, h, k);
    assert TreeAhead(t, h, r)[k] == open + (x + (y + (z + r[k])));
    Regroup(x, y, z + r[k]);
    Regroup(open, x + y, z + r[k]);
    Regroup(open + (x + y), z, r[k]);
    assert Lines(t, h, k) == open + (x + y) + z;
  }

  // ----- Reading undoes emitting -----

  /** A conditional without an else has no second branch. */
  predicate ElseOk(t: Code)
    decreases t, 0
  {
    match t
    case If(_, thn, hasElse, els) => (hasElse || els == []) && ElseOkSeq(thn) && ElseOkSeq(els)
    case While(_, body) => ElseOkSeq(body)
    case Do(body, _) => ElseOkSeq(body)
    case For(_, body) => ElseOkSeq(body)
    case Foreach(_, _, body) => ElseOkSeq(body)
    case Block(body) => ElseOkSeq(body)
    case TryBlock(_, body, handler, fin, _) => ElseOkSeq(body) && ElseOkSeq(handler) && ElseOkSeq(fin)
    case _ => true
  }

  predicate ElseOkSeq(ts: seq<Code>)
    decreases ts, 0
  {
    ts == [] || (ElseOk(ts[0]) && ElseOkSeq(ts[1..]))
  }

  lemma PopAhead(h: nat, l: CLine, r: Buffers)
    requires h < BUFFERS
    ensures var b := LineAhead(h, l, r); b[h] != [] && b[h][0] == l && Pop(b, h) == r
  {
    assert ([l] + r[h])[1..] == r[h];
  }

  lemma {:induction false} SeqIsRead(ts: seq<Code>, h: nat, r: Buffers)
    requires h + DepthSeq(ts) < BUFFERS && ElseOkSeq(ts) && !TreeComes(r, h)
    ensures ReadSeq(Ahead(ts, h, r), h) == Read(ts, r)
    decreases ts, 0
  {
    if ts != [] {
      SeqIsRead(ts[1..], h, r);
      TreeIsRead(ts[0], h, Ahead(ts[1..], h, r));
      assert [ts[0]] + ts[1..] == ts;
    }
  }

  lemma {:induction false} BracedIsRead(h: nat, open: CLine, body: seq<Code>, r: Buffers)
    requires h + DepthSeq(body) < BUFFERS && ElseOkSeq(body)
    ensures var b := Framed(h, open, body, Close, r); b[h] != [] && b[h][0] == open && ReadBraced(Pop(b, h), h) == Read(body, r)
    decreases body, 1
  {
    PopAhead(h, Close, r);
    SeqIsRead(body, h, LineAhead(h, Close, r));
    PopAhead(h, open, Ahead(body, h, LineAhead(h, Close, r)));
  }

  lemma {:induction false} TreeIsRead(t: Code, h: nat, r: Buffers)
    requires h + Depth(t) < BUFFERS && ElseOk(t)
    ensures var b := TreeAhead(t, h, r); TreeComes(b, h) && ReadTree(b, h) == Read(t, r)
    decreases t, 3
  {
    match t
    case Line(op) => PopAhead(h, Simple(op), r);
    case If(_, _, _, _) => IfIsRead(t, h, r);
    case While(c, body) => BracedIsRead(h, OpenWhile(c), body, r);
    case Do(body, c) => DoIsRead(t, h, r);
    case For(cond, body) => BracedIsRead(h, OpenFor(cond), body, r);
    case Foreach(e, v, body) => BracedIsRead(h, OpenForeach(e, v), body, r);
    case Block(body) => BracedIsRead(h, Open, body, r);
    case TryBlock(_, _, _, _, _) => TryIsRead(t, h, r);
  }

  lemma {:induction false} DoIsRead(t: Code, h: nat, r: Buffers)
    requires t.Do? && h + Depth(t) < BUFFERS && ElseOk(t)
    ensures var b := TreeAhead(t, h, r); TreeComes(b, h) && ReadTree(b, h) == Read(t, r)
    decreases t, 2
  {
    var x := LineAhead(h, CloseDo(t.c), r);
    PopAhead(h, CloseDo(t.c), r);
    SeqIsRead(t.body, h, x);
    PopAhead(h, OpenDo, Ahead(t.body, h, x));
  }

  lemma {:induction false} IfIsRead(t: Code, h: nat, r: Buffers)
    requires t.If? && h + Depth(t) < BUFFERS && ElseOk(t)
    ensures var b := TreeAhead(t, h, r); TreeComes(b, h) && ReadTree(b, h) == Read(t, r)
    decreases t, 2
  {
    var x := LineAhead(h, Close, r);
    var second := Ahead(t.els, h, x);
    PopAhead(h, Close, r);
    SeqIsRead(t.els, h, x);
    var els := if t.hasElse then LineAhead(h, Else, second) else x;
    if t.hasElse { PopAhead(h, Else, second); } else { assert second == x; }
    SeqIsRead(t.thn, h, els);
    PopAhead(h, OpenIf(t.c), Ahead(t.thn, h, els));
    IfStep(t, Ahead(t.thn, h, els), els, x, h, r);
  }

  lemma IfStep(t: Code, b: Buffers, els: Buffers, x: Buffers, h: nat, r: Buffers)
    requires t.If? && (t.hasElse || t.els == []) && ReadSeq(b, h) == Read(t.thn, els) && Next(x, h, Close) && Pop(x, h) == r
    requires if t.hasElse then Next(els, h, Else) && ReadSeq(Pop(els, h), h) == Read(t.els, x) else els == x
    ensures ReadIf(t.c, b, h) == Read(t, r)
  {
  }

  lemma {:induction false} DispatchesAreRead(id: nat, ds: seq<Dispatch>, h: nat, r: Buffers)
    requires h < BUFFERS
    ensures var x := LineAhead(h, Close, r); ReadDispatches(id, DispatchesAhead(id, ds, h, x), h) == Read(ds, x)
  {
    var x := LineAhead(h, Close, r);
    PopAhead(h, Close, r);
    if ds != [] {
      DispatchesAreRead(id, ds[1..], h, r);
      PopAhead(h, Dispatched(id, ds[0]), DispatchesAhead(id, ds[1..], h, x));
      assert [ds[0]] + ds[1..] == ds;
    }
  }

  lemma NoTreeBehind(id: nat, ds: seq<Dispatch>, h: nat, r: Buffers)
    requires h < BUFFERS
    ensures !TreeComes(DispatchesAhead(id, ds, h, LineAhead(h, Close, r)), h)
  {
  }

  lemma {:induction false} TryIsRead(t: Code, h: nat, r: Buffers)
    requires t.TryBlock? && h + Depth(t) < BUFFERS && ElseOk(t)
    ensures var b := TreeAhead(t, h, r); TreeComes(b, h) && ReadTree(b, h) == Read(t, r)
    decreases t, 2
  {
    var g, id := h + 1, t.id;
    var x := LineAhead(h, Close, r);
    var y := DispatchesAhead(id, t.dispatch, h, x);
    var fin := Ahead(t.fin, h, y);
    var call := LineAhead(h, TryRun(id), fin);
    var handler := Framed(g, CatchHead(id), t.handler, Close, call);
    var body := Framed(g, BodyHead(id), t.body, Close, handler);
    assert Inner(h) == g;
    PopAhead(h, Close, r);
    DispatchesAreRead(id, t.dispatch, h, r);
    NoTreeBehind(id, t.dispatch, h, r);
    SeqIsRead(t.fin, h, y);
    PopAhead(h, TryRun(id), fin);
    BracedIsRead(g, CatchHead(id), t.handler, call);
    BracedIsRead(g, BodyHead(id), t.body, handler);
    PopAhead(h, TryOpen(id), body);
    TryStep(id, body, handler, call, y, x, h, t.body, t.handler, t.fin, t.dispatch, r);
  }

  lemma TryStep(id: nat, b: Buffers, x1: Buffers, x2: Buffers, x3: Buffers, x4: Buffers, h: nat,
                body: seq<Code>, handler: seq<Code>, fin: seq<Code>, ds: seq<Dispatch>, r: Buffers)
    requires ReadHelper(BodyHead(id), b, h + 1) == Read(body, x1) && ReadHelper(CatchHead(id), x1, h + 1) == Read(handler, x2)
    requires Next(x2, h, TryRun(id)) && ReadSeq(Pop(x2, h), h) == Read(fin, x3)
    requires ReadDispatches(id, x3, h) == Read(ds, x4) && Next(x4, h, Close) && Pop(x4, h) == r
    ensures ReadTry(id, b, h) == Read(TryBlock(id, body, handler, fin, ds), r)
  {
  }

  // ----- The code of statements -----

  lemma {:induction false} ElseOkAppend(a: seq<Code>, b: seq<Code>)
    ensures ElseOkSeq(a + b) <==> ElseOkSeq(a) && ElseOkSeq(b)
  {
    if a == [] {
      assert a + b == b;
    } else {
      assert (a + b)[1..] == a[1..] + b;
      ElseOkAppend(a[1..], b);
    }
  }

  lemma ElseOkOne(t: Code)
    ensures ElseOkSeq([t]) <==> ElseOk(t)
  {
  }

  lemma {:induction false} EchoElseOk(es: seq<ExprId>)
    ensures ElseOkSeq(EchoLines(es))
  {
    if es != [] { EchoElseOk(es[1..]); ElseOkAppend([Line(Echo(es[0]))], EchoLines(es[1..])); }
  }

  lemma {:induction false} EvalElseOk(es: seq<ExprId>)
    ensures ElseOkSeq(EvalLines(es))
  {
    if es != [] { EvalElseOk(es[1..]); ElseOkAppend([Line(Evaluate(es[0]))], EvalLines(es[1..])); }
  }

  /** The second branch of a conditional is emitted behind an else. */
  lemma {:induction false} LoweredElseOk(s: Stmt, p: Place, ids: Ids)
    ensures ElseOkSeq(LowerStmt(s, p, ids).code)
    decreases s, 1
  {
    match s
    case SEcho(es) => EchoElseOk(es);
    case SIf(_, thn, els) =>
      LoweredElseOkSeq(thn, p, ids);
      LoweredElseOkSeq(els, p, LowerSeq(thn, p, ids).ids);
      ElseOkOne(LowerStmt(s, p, ids).code[0]);
    case SWhile(_, body) => BodyElseOk(body, [], p, ids); ElseOkOne(LowerStmt(s, p, ids).code[0]);
    case SDo(body, _) => BodyElseOk(body, [], p, ids); ElseOkOne(LowerStmt(s, p, ids).code[0]);
    case SForeach(_, _, body) => BodyElseOk(body, [], p, ids); ElseOkOne(LowerStmt(s, p, ids).code[0]);
    case SFor(_, _, _, _) => ForElseOk(s, p, ids);
    case SBlock(body) => LoweredElseOkSeq(body, p, ids); ElseOkOne(LowerStmt(s, p, ids).code[0]);
    case STry(_, _, _) => TryElseOk(s, p, ids);
    case _ => ElseOkOne(LowerStmt(s, p, ids).code[0]);
  }

  lemma {:induction false} LoweredElseOkSeq(ss: seq<Stmt>, p: Place, ids: Ids)
    ensures ElseOkSeq(LowerSeq(ss, p, ids).code)
    decreases ss, 0
  {
    if ss != [] {
      var first := LowerStmt(ss[0], p, ids);
      LoweredElseOk(ss[0], p, ids);
      LoweredElseOkSeq(ss[1..], p, first.ids);
      ElseOkAppend(first.code, LowerSeq(ss[1..], p, first.ids).code);
    }
  }

  lemma {:induction false} BodyElseOk(body: seq<Stmt>, step: seq<ExprId>, p: Place, ids: Ids)
    ensures var code := LowerSeq(body, p.InLoop(ids.labelId), ids.(labelId := ids.labelId + 1)).code;
            ElseOkSeq(code + [Line(Label(ids.labelId))]) && ElseOkSeq(code + ([Line(Label(ids.labelId))] + EvalLines(step)))
    decreases body, 1
  {
    var code, mark := LowerSeq(body, p.InLoop(ids.labelId), ids.(labelId := ids.labelId + 1)).code, [Line(Label(ids.labelId))];
    LoweredElseOkSeq(body, p.InLoop(ids.labelId), ids.(labelId := ids.labelId + 1));
    ElseOkOne(mark[0]);
    EvalElseOk(step);
    ElseOkAppend(mark, EvalLines(step));
    ElseOkAppend(code, mark);
    ElseOkAppend(code, mark + EvalLines(step));
  }

  lemma {:induction false} ForElseOk(s: Stmt, p: Place, ids: Ids)
    requires s.SFor?
    ensures ElseOkSeq(LowerStmt(s, p, ids).code)
    decreases s, 0
  {
    BodyElseOk(s.body, s.step, p, ids);
    EvalElseOk(s.init);
    var loop := For(s.cond, LowerSeq(s.body, p.InLoop(ids.labelId), ids.(labelId := ids.labelId + 1)).code
                            + ([Line(Label(ids.labelId))] + EvalLines(s.step)));
    ElseOkOne(loop);
    ElseOkAppend(EvalLines(s.init), [loop]);
    ElseOkOne(Block(EvalLines(s.init) + [loop]));
  }

  lemma {:induction false} TryElseOk(s: Stmt, p: Place, ids: Ids)
    requires s.STry?
    ensures ElseOkSeq(LowerStmt(s, p, ids).code)
    decreases s, 0
  {
    var next := ids.(tryId := ids.tryId + 1);
    var b := LowerSeq(s.body, p.InTry(), next);
    var c := LowerClauses(s.clauses, p.InTry(), b.ids);
    var h := LowerHelpers(s, p, next);
    var fin := LowerSeq(s.fin, p, h.ids);
    var back := if s.clauses == [] then [Line(ReturnEx)] else [];
    var t := TryBlock(ids.tryId, h.body, h.handler, fin.code, Dispatches(p));
    assert LowerStmt(s, p, ids) == Lowered([t], fin.ids);
    LoweredElseOkSeq(s.body, p.InTry(), next);
    ClausesElseOk(s.clauses, p.InTry(), b.ids);
    LoweredElseOkSeq(s.fin, p, h.ids);
    ElseOkOne(Line(ReturnNull));
    ElseOkOne(Line(ReturnEx));
    ElseOkAppend(b.code, [Line(ReturnNull)]);
    ElseOkAppend(c.code, back);
    ElseOkAppend(c.code + back, [Line(ReturnNull)]);
    ElseOkOne(t);
  }

  lemma {:induction false} ClausesElseOk(clauses: seq<Clause>, p: Place, ids: Ids)
    ensures ElseOkSeq(LowerClauses(clauses, p, ids).code)
    decreases clauses, 0
  {
    if clauses != [] {
      var first := LowerSeq(clauses[0].body, p, ids);
      var bind := [Line(BindEx(clauses[0].ty, clauses[0].v))];
      LoweredElseOkSeq(clauses[0].body, p, ids);
      ClausesElseOk(clauses[1..], p, first.ids);
      ElseOkOne(bind[0]);
      ElseOkAppend(bind, first.code);
      ElseOkAppend(bind + first.code, LowerClauses(clauses[1..], p, first.ids).code);
    }
  }

  // ----- Main results -----

  const NO_LINES: Buffers := seq(BUFFERS, _ => [])

  /** Reading what was emitted for a function body gives its translation, and nothing is left over. */
  lemma EmittedIsRead(ss: seq<Stmt>, p: Place, ids: Ids, bufs: Buffers)
    requires TryDepthSeq(ss) < BUFFERS && Added(NO_LINES, bufs, 0, LowerSeq(ss, p, ids).code)
    ensures ReadSeq(bufs, 0) == Read(LowerSeq(ss, p, ids).code, NO_LINES)
  {
    var code := LowerSeq(ss, p, ids).code;
    forall k | 0 <= k < BUFFERS ensures Ahead(code, 0, NO_LINES)[k] == bufs[k] {
      SeqIsAhead(code, 0, NO_LINES, k);
      assert [] + LinesSeq(code, 0, k) == LinesSeq(code, 0, k) == LinesSeq(code, 0, k) + [];
    }
    assert Ahead(code, 0, NO_LINES) == bufs;
    DepthKeptSeq(ss, p, ids);
    LoweredElseOkSeq(ss, p, ids);
    SeqIsRead(code, 0, NO_LINES);
  }

  /** So the lines themselves mean what the function body means. */
  lemma EmittedFunctionCorrect(w: World, ss: seq<Stmt>, valued: bool, ids: Ids, bufs: Buffers, st: Store, fuel: nat)
    requires LoopsOkSeq(ss, false) && FaithfulSeq(w, ss, st, fuel, false, false)
    requires TryDepthSeq(ss) < BUFFERS && Added(NO_LINES, bufs, 0, LowerSeq(ss, Place(false, 0, [], valued), ids).code)
    ensures ReadSeq(bufs, 0).Read?
    ensures var o := ExecSeq(w, ss, st, fuel);
            var r := RunSeq(w, ReadSeq(bufs, 0).value, st, Env(0, Null), Null, fuel);
            && r.st == o.st
            && (o.c.Normal? <==> r.c.Falls?)
            && (o.c.OutOfFuel? <==> r.c.Starves?)
            && (o.c.Return? <==> r.c.Returns?) && (o.c.Return? && valued ==> r.c.v == o.c.v)
            && (o.c.Throw? <==> r.c.Throws?) && (o.c.Throw? ==> r.c.ex == o.c.ex)
  {
    EmittedIsRead(ss, Place(false, 0, [], valued), ids, bufs);
    FunctionCorrect(w, ss, valued, ids, st, fuel);
  }

  /** A function body is emitted: its lines read back as its translation. */
  method EmitFunction(ss: seq<Stmt>, valued: bool) returns (bufs: Buffers)
    requires TryDepthSeq(ss) < BUFFERS
    ensures ReadSeq(bufs, 0) == Read(LowerSeq(ss, Place(false, 0, [], valued), Ids(0, 0)).code, NO_LINES)
  {
    var g := new Codegen(valued);
    assert g.bufs == NO_LINES;
    g.EmitSeq(ss);
    bufs := g.bufs;
    EmittedIsRead(ss, Place(false, 0, [], valued), Ids(0, 0), bufs);
  }
}
