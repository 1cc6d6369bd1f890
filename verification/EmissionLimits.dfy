/** How deep try statements may nest: the emitter has eight buffers for helper definitions, and below that
    a definition ends up inside another one. */
module EmissionLimits {
  import opened Basics
  import opened SourceLanguage
  import opened TargetLanguage
  import opened Lowering
  import opened Emission

  // ----- How far try statements nest, in the source and as emitted -----

  function TryDepth(s: Stmt): nat
    decreases s, 0
  {
    match s
    case SIf(_, thn, els) => Max(TryDepthSeq(thn), TryDepthSeq(els))
    case SWhile(_, body) => TryDepthSeq(body)
    case SDo(body, _) => TryDepthSeq(body)
    case SFor(_, _, _, body) => TryDepthSeq(body)
    case SForeach(_, _, body) => TryDepthSeq(body)
    case SBlock(body) => TryDepthSeq(body)
    case STry(body, clauses, fin) => Max(1 + Max(TryDepthSeq(body), TryDepthClauses(clauses)), TryDepthSeq(fin))
    case _ => 0
  }

  function TryDepthSeq(ss: seq<Stmt>): nat
    decreases ss, 0
  {
    if ss == [] then 0 else Max(TryDepth(ss[0]), TryDepthSeq(ss[1..]))
  }

  function TryDepthClauses(clauses: seq<Clause>): nat
    decreases clauses, 0
  {
    if clauses == [] then 0 else Max(TryDepthSeq(clauses[0].body), TryDepthClauses(clauses[1..]))
  }

  function Max(a: nat, b: nat): nat { if a < b then b else a }

  function Depth(t: Code): nat
    decreases t, 0
  {
    match t
    case Line(_) => 0
    case If(_, thn, _, els) => Max(DepthSeq(thn), DepthSeq(els))
    case While(_, body) => DepthSeq(body)
    case Do(body, _) => DepthSeq(body)
    case For(_, body) => DepthSeq(body)
    case Foreach(_, _, body) => DepthSeq(body)
    case Block(body) => DepthSeq(body)
    case TryBlock(_, body, handler, fin, _) => Max(1 + Max(DepthSeq(body), DepthSeq(handler)), DepthSeq(fin))
  }

  function DepthSeq(ts: seq<Code>): nat
    decreases ts, 0
  {
    if ts == [] then 0 else Max(Depth(ts[0]), DepthSeq(ts[1..]))
  }

  lemma {:induction false} DepthAppend(a: seq<Code>, b: seq<Code>)
    ensures DepthSeq(a + b) == Max(DepthSeq(a), DepthSeq(b))
  {
    if a == [] {
      assert a + b == b;
    } else {
      assert (a + b)[1..] == a[1..] + b;
      DepthAppend(a[1..], b);
    }
  }

  lemma DepthOne(t: Code)
    ensures DepthSeq([t]) == Depth(t)
  {
  }

  lemma {:induction false} EchoIsFlat(es: seq<ExprId>)
    ensures DepthSeq(EchoLines(es)) == 0
  {
    if es != [] {
      EchoIsFlat(es[1..]);
      DepthAppend([Line(Echo(es[0]))], EchoLines(es[1..]));
    }
  }

  lemma {:induction false} EvalIsFlat(es: seq<ExprId>)
    ensures DepthSeq(EvalLines(es)) == 0
  {
    if es != [] {
      EvalIsFlat(es[1..]);
      DepthAppend([Line(Evaluate(es[0]))], EvalLines(es[1..]));
    }
  }

  /** The emitted code nests its tries as the statements do. */
  lemma {:induction false} DepthKept(s: Stmt, p: Place, ids: Ids)
    ensures DepthSeq(LowerStmt(s, p, ids).code) == TryDepth(s)
    decreases s, 1
  {
    match s
    case SEcho(es) => EchoIsFlat(es);
    case SIf(_, thn, els) =>
      DepthKeptSeq(thn, p, ids);
      DepthKeptSeq(els, p, LowerSeq(thn, p, ids).ids);
      DepthOne(LowerStmt(s, p, ids).code[0]);
    case SWhile(_, body) => DepthKeptBody(body, [], p, ids); DepthOne(LowerStmt(s, p, ids).code[0]);
    case SDo(body, _) => DepthKeptBody(body, [], p, ids); DepthOne(LowerStmt(s, p, ids).code[0]);
    case SForeach(_, _, body) => DepthKeptBody(body, [], p, ids); DepthOne(LowerStmt(s, p, ids).code[0]);
    case SFor(_, _, _, _) => DepthKeptFor(s, p, ids);
    case SBlock(body) => DepthKeptSeq(body, p, ids); DepthOne(LowerStmt(s, p, ids).code[0]);
    case STry(_, _, _) => DepthKeptTry(s, p, ids);
    case _ => DepthOne(LowerStmt(s, p, ids).code[0]);
  }

  lemma {:induction false} DepthKeptFor(s: Stmt, p: Place, ids: Ids)
    requires s.SFor?
    ensures DepthSeq(LowerStmt(s, p, ids).code) == TryDepth(s)
    decreases s, 0
  {
    DepthKeptBody(s.body, s.step, p, ids);
    EvalIsFlat(s.init);
    var loop := For(s.cond, LowerSeq(s.body, p.InLoop(ids.labelId), ids.(labelId := ids.labelId + 1)).code
                            + ([Line(Label(ids.labelId))] + EvalLines(s.step)));
    DepthOne(loop);
    DepthAppend(EvalLines(s.init), [loop]);
    DepthOne(Block(EvalLines(s.init) + [loop]));
  }

  lemma {:induction false} DepthKeptTry(s: Stmt, p: Place, ids: Ids)
    requires s.STry?
    ensures DepthSeq(LowerStmt(s, p, ids).code) == TryDepth(s)
    decreases s, 0, 1
  {
    var next := ids.(tryId := ids.tryId + 1);
    var h := LowerHelpers(s, p, next);
    var fin := LowerSeq(s.fin, p, h.ids);
    var t := TryBlock(ids.tryId, h.body, h.handler, fin.code, Dispatches(p));
    assert LowerStmt(s, p, ids) == Lowered([t], fin.ids);
    DepthKeptHelpers(s, p, next);
    DepthKeptSeq(s.fin, p, h.ids);
    DepthOne(t);
  }

  lemma {:induction false} DepthKeptSeq(ss: seq<Stmt>, p: Place, ids: Ids)
    ensures DepthSeq(LowerSeq(ss, p, ids).code) == TryDepthSeq(ss)
    decreases ss, 0
  {
    if ss != [] {
      var first := LowerStmt(ss[0], p, ids);
      DepthKept(ss[0], p, ids);
      DepthKeptSeq(ss[1..], p, first.ids);
      DepthAppend(first.code, LowerSeq(ss[1..], p, first.ids).code);
    }
  }

  lemma {:induction false} DepthKeptBody(body: seq<Stmt>, step: seq<ExprId>, p: Place, ids: Ids)
    ensures var code := LowerSeq(body, p.InLoop(ids.labelId), ids.(labelId := ids.labelId + 1)).code;
            && DepthSeq(code + [Line(Label(ids.labelId))]) == TryDepthSeq(body)
            && DepthSeq(code + ([Line(Label(ids.labelId))] + EvalLines(step))) == TryDepthSeq(body)
    decreases body, 1
  {
    var code, mark := LowerSeq(body, p.InLoop(ids.labelId), ids.(labelId := ids.labelId + 1)).code, [Line(Label(ids.labelId))];
    DepthKeptSeq(body, p.InLoop(ids.labelId), ids.(labelId := ids.labelId + 1));
    DepthOne(mark[0]);
    EvalIsFlat(step);
    DepthAppend(mark, EvalLines(step));
    DepthAppend(code, mark);
    DepthAppend(code, mark + EvalLines(step));
  }

  lemma {:induction false} DepthKeptHelpers(s: Stmt, p: Place, ids: Ids)
    requires s.STry?
    ensures var h := LowerHelpers(s, p, ids);
            DepthSeq(h.body) == TryDepthSeq(s.body) && DepthSeq(h.handler) == TryDepthClauses(s.clauses)
    decreases s, 0, 0
  {
    var b := LowerSeq(s.body, p.InTry(), ids);
    var c := LowerClauses(s.clauses, p.InTry(), b.ids);
    DepthKeptSeq(s.body, p.InTry(), ids);
    DepthKeptClauses(s.clauses, p.InTry(), b.ids);
    DepthOne(Line(ReturnNull));
    DepthOne(Line(ReturnEx));
    DepthAppend(b.code, [Line(ReturnNull)]);
    DepthAppend(c.code, if s.clauses == [] then [Line(ReturnEx)] else []);
    DepthAppend(c.code + (if s.clauses == [] then [Line(ReturnEx)] else []), [Line(ReturnNull)]);
  }

  lemma {:induction false} DepthKeptClauses(clauses: seq<Clause>, p: Place, ids: Ids)
    ensures DepthSeq(LowerClauses(clauses, p, ids).code) == TryDepthClauses(clauses)
    decreases clauses, 0
  {
    if clauses != [] {
      var first := LowerSeq(clauses[0].body, p, ids);
      var bind := [Line(BindEx(clauses[0].ty, clauses[0].v))];
      DepthKeptSeq(clauses[0].body, p, ids);
      DepthKeptClauses(clauses[1..], p, first.ids);
      DepthOne(bind[0]);
      DepthAppend(bind, first.code);
      DepthAppend(bind + first.code, LowerClauses(clauses[1..], p, first.ids).code);
    }
  }

  // ----- Where helper definitions stand -----

  predicate IsHead(l: CLine) { l.BodyHead? || l.CatchHead? }

  /** How many braces a line opens, less those it closes. */
  function Opens(l: CLine): int {
    match l
    case OpenIf(_) => 1
    case OpenWhile(_) => 1
    case OpenDo => 1
    case OpenFor(_) => 1
    case OpenForeach(_, _) => 1
    case Open => 1
    case TryOpen(_) => 1
    case BodyHead(_) => 1
    case CatchHead(_) => 1
    case Close => -1
    case CloseDo(_) => -1
    case _ => 0
  }

  /** With d braces open in front of the lines: no helper definition begins inside another function. */
  predicate HeadsAtTop(ls: seq<CLine>, d: int) {
    ls == [] || ((IsHead(ls[0]) ==> d == 0) && HeadsAtTop(ls[1..], d + Opens(ls[0])))
  }

  function Braces(ls: seq<CLine>): int { if ls == [] then 0 else Opens(ls[0]) + Braces(ls[1..]) }

  lemma {:induction false} HeadsAppend(a: seq<CLine>, b: seq<CLine>, d: int)
    ensures HeadsAtTop(a + b, d) <==> HeadsAtTop(a, d) && HeadsAtTop(b, d + Braces(a))
    ensures Braces(a + b) == Braces(a) + Braces(b)
    decreases |a|
  {
    if a == [] {
      assert a + b == b;
    } else {
      assert (a + b)[1..] == a[1..] + b;
      HeadsAppend(a[1..], b, d + Opens(a[0]));
    }
  }

  /** Lines in a pair of braces. */
  lemma Framing(same: bool, open: CLine, inner: seq<CLine>, close: CLine, d: int)
    requires Opens(open) == 1 && Opens(close) == -1 && !IsHead(close) && Braces(inner) == 0
    ensures var ls := Here(same, open) + inner + Here(same, close);
            && Braces(ls) == 0
            && (HeadsAtTop(ls, d) <==> (same && IsHead(open) ==> d == 0) && HeadsAtTop(inner, if same then d + 1 else d))
  {
    assert [open][1..] == [] && [close][1..] == [];
    HeadsAppend(Here(same, open), inner, d);
    HeadsAppend(Here(same, open) + inner, Here(same, close), d);
  }

  /** In front of the lines of buffer k: the code is in some function if it is written there itself. */
  predicate At(h: nat, k: nat, d: int) { h < BUFFERS && k < BUFFERS && if k == h then d > 0 else d == 0 }

  predicate Fits(h: nat, k: nat, depth: nat) { k < BUFFERS - 1 || h + depth < BUFFERS }

  lemma {:induction false} HeadsSeq(ts: seq<Code>, h: nat, k: nat, d: int)
    requires At(h, k, d)
    ensures Braces(LinesSeq(ts, h, k)) == 0 && (HeadsAtTop(LinesSeq(ts, h, k), d) <==> Fits(h, k, DepthSeq(ts)))
    decreases ts, 0
  {
    if ts != [] {
      HeadsTree(ts[0], h, k, d);
      HeadsSeq(ts[1..], h, k, d);
      HeadsAppend(Lines(ts[0], h, k), LinesSeq(ts[1..], h, k), d);
    }
  }

  lemma {:induction false} HeadsTree(t: Code, h: nat, k: nat, d: int)
    requires At(h, k, d)
    ensures Braces(Lines(t, h, k)) == 0 && (HeadsAtTop(Lines(t, h, k), d) <==> Fits(h, k, Depth(t)))
    decreases t, 3
  {
    match t
    case Line(op) => assert [Simple(op)][1..] == [];
    case If(_, _, _, _) => HeadsIf(t, h, k, d);
    case While(c, body) => HeadsBody(body, OpenWhile(c), Close, h, k, d);
    case Do(body, c) => HeadsBody(body, OpenDo, CloseDo(c), h, k, d);
    case For(cond, body) => HeadsBody(body, OpenFor(cond), Close, h, k, d);
    case Foreach(e, v, body) => HeadsBody(body, OpenForeach(e, v), Close, h, k, d);
    case Block(body) => HeadsBody(body, Open, Close, h, k, d);
    case TryBlock(_, _, _, _, _) => HeadsTry(t, h, k, d);
  }

  lemma {:induction false} HeadsBody(body: seq<Code>, open: CLine, close: CLine, h: nat, k: nat, d: int)
    requires Opens(open) == 1 && Opens(close) == -1 && !IsHead(open) && !IsHead(close) && At(h, k, d)
    ensures var ls := Here(h == k, open) + LinesSeq(body, h, k) + Here(h == k, close);
            Braces(ls) == 0 && (HeadsAtTop(ls, d) <==> Fits(h, k, DepthSeq(body)))
    decreases body, 1
  {
    HeadsSeq(body, h, k, if h == k then d + 1 else d);
    Framing(h == k, open, LinesSeq(body, h, k), close, d);
  }

  lemma {:induction false} HeadsIf(t: Code, h: nat, k: nat, d: int)
    requires t.If? && At(h, k, d)
    ensures Braces(Lines(t, h, k)) == 0 && (HeadsAtTop(Lines(t, h, k), d) <==> Fits(h, k, Depth(t)))
    decreases t, 2
  {
    var d' := if h == k then d + 1 else d;
    var a, e, b := LinesSeq(t.thn, h, k), Here(t.hasElse && h == k, Else), LinesSeq(t.els, h, k);
    HeadsSeq(t.thn, h, k, d');
    HeadsSeq(t.els, h, k, d');
    PlainLine(t.hasElse && h == k, Else, d');
    JoinedThree(a, e, b, d');
    Framing(h == k, OpenIf(t.c), a + e + b, Close, d);
    IfLines(t, h, k);
    FitsMax(h, k, DepthSeq(t.thn), DepthSeq(t.els));
  }

  lemma JoinedThree(a: seq<CLine>, b: seq<CLine>, c: seq<CLine>, d: int)
    requires Braces(a) == Braces(b) == Braces(c) == 0
    ensures Braces(a + b + c) == 0 && (HeadsAtTop(a + b + c, d) <==> HeadsAtTop(a, d) && HeadsAtTop(b, d) && HeadsAtTop(c, d))
  {
    HeadsAppend(a, b, d);
    HeadsAppend(a + b, c, d);
  }

  lemma IfLines(t: Code, h: nat, k: nat)
    requires t.If?
    ensures var inner := LinesSeq(t.thn, h, k) + Here(t.hasElse && h == k, Else) + LinesSeq(t.els, h, k);
            Lines(t, h, k) == Here(h == k, OpenIf(t.c)) + inner + Here(h == k, Close)
  {
    Regroup(Here(h == k, OpenIf(t.c)), LinesSeq(t.thn, h, k), Here(t.hasElse && h == k, Else));
    Regroup(Here(h == k, OpenIf(t.c)), LinesSeq(t.thn, h, k) + Here(t.hasElse && h == k, Else), LinesSeq(t.els, h, k));
  }

  lemma PlainLine(same: bool, l: CLine, d: int)
    requires Opens(l) == 0 && !IsHead(l)
    ensures Braces(Here(same, l)) == 0 && HeadsAtTop(Here(same, l), d)
  {
    assert [l][1..] == [];
  }

  lemma FitsMax(h: nat, k: nat, a: nat, b: nat)
    ensures Fits(h, k, Max(a, b)) <==> Fits(h, k, a) && Fits(h, k, b)
  {
  }

  lemma {:induction false} HeadsHelper(head: CLine, code: seq<Code>, h: nat, k: nat, d: int)
    requires IsHead(head) && At(h, k, d)
    ensures var ls := HelperLines(head, code, Inner(h), k);
            Braces(ls) == 0 && (HeadsAtTop(ls, d) <==> Fits(h, k, 1 + DepthSeq(code)))
    decreases code, 1
  {
    var g := Inner(h);
    if k == h < g {
      BelowIsEmpty(code, g, k);
      Framing(false, head, [], Close, d);
      assert HelperLines(head, code, g, k) == Here(false, head) + [] + Here(false, Close);
    } else {
      HeadsSeq(code, g, k, if g == k then d + 1 else d);
      Framing(g == k, head, LinesSeq(code, g, k), Close, d);
    }
  }

  /** Nothing is written to a buffer in front of the current one. */
  lemma {:induction false} BelowIsEmpty(ts: seq<Code>, h: nat, k: nat)
    requires k < h < BUFFERS
    ensures LinesSeq(ts, h, k) == []
    decreases ts, 0
  {
    if ts != [] {
      BelowIsEmptyTree(ts[0], h, k);
      BelowIsEmpty(ts[1..], h, k);
    }
  }

  lemma {:induction false} BelowIsEmptyTree(t: Code, h: nat, k: nat)
    requires k < h < BUFFERS
    ensures Lines(t, h, k) == []
    decreases t, 1
  {
    match t
    case Line(_) =>
    case If(_, thn, _, els) => BelowIsEmpty(thn, h, k); BelowIsEmpty(els, h, k);
    case While(_, body) => BelowIsEmpty(body, h, k);
    case Do(body, _) => BelowIsEmpty(body, h, k);
    case For(_, body) => BelowIsEmpty(body, h, k);
    case Foreach(_, _, body) => BelowIsEmpty(body, h, k);
    case Block(body) => BelowIsEmpty(body, h, k);
    case TryBlock(id, body, handler, fin, ds) =>
      BelowIsEmpty(body, Inner(h), k);
      BelowIsEmpty(handler, Inner(h), k);
      BelowIsEmpty(fin, h, k);
      DispatchIsPlain(id, ds, false, 0);
  }

  lemma {:induction false} DispatchIsPlain(id: nat, ds: seq<Dispatch>, same: bool, d: int)
    ensures Braces(DispatchLines(id, ds, same)) == 0 && HeadsAtTop(DispatchLines(id, ds, same), d)
    ensures !same ==> DispatchLines(id, ds, same) == []
  {
    if ds != [] {
      DispatchIsPlain(id, ds[1..], same, d);
      assert [Dispatched(id, ds[0])][1..] == [];
      HeadsAppend(Here(same, Dispatched(id, ds[0])), DispatchLines(id, ds[1..], same), d);
    }
  }

  lemma {:induction false} HeadsTry(t: Code, h: nat, k: nat, d: int)
    requires t.TryBlock? && At(h, k, d)
    ensures Braces(Lines(t, h, k)) == 0 && (HeadsAtTop(Lines(t, h, k), d) <==> Fits(h, k, Depth(t)))
    decreases t, 2
  {
    var d' := if h == k then d + 1 else d;
    var x := HelperLines(BodyHead(t.id), t.body, Inner(h), k);
    var y := HelperLines(CatchHead(t.id), t.handler, Inner(h), k);
    var run, fin, ds := Here(h == k, TryRun(t.id)), LinesSeq(t.fin, h, k), DispatchLines(t.id, t.dispatch, h == k);
    HeadsHelper(BodyHead(t.id), t.body, h, k, d');
    HeadsHelper(CatchHead(t.id), t.handler, h, k, d');
    HeadsSeq(t.fin, h, k, d');
    DispatchIsPlain(t.id, t.dispatch, h == k, d');
    PlainLine(h == k, TryRun(t.id), d');
    Joined(x, y, run, fin, ds, d');
    Framing(h == k, TryOpen(t.id), (x + y) + (run + fin + ds), Close, d);
    TryLines(t, h, k);
    FitsMax(h, k, 1 + DepthSeq(t.body), 1 + DepthSeq(t.handler));
    FitsMax(h, k, 1 + Max(DepthSeq(t.body), DepthSeq(t.handler)), DepthSeq(t.fin));
  }

  lemma Joined(x: seq<CLine>, y: seq<CLine>, run: seq<CLine>, fin: seq<CLine>, ds: seq<CLine>, d: int)
    requires Braces(x) == Braces(y) == Braces(run) == Braces(fin) == Braces(ds) == 0
    ensures var ls := (x + y) + (run + fin + ds);
            && Braces(ls) == 0
            && (HeadsAtTop(ls, d) <==> HeadsAtTop(x, d) && HeadsAtTop(y, d) && HeadsAtTop(run, d) && HeadsAtTop(fin, d) && HeadsAtTop(ds, d))
  {
    HeadsAppend(x, y, d);
    JoinedThree(run, fin, ds, d);
    HeadsAppend(x + y, run + fin + ds, d);
  }

  lemma TryLines(t: Code, h: nat, k: nat)
    requires t.TryBlock?
    ensures var helpers := HelperLines(BodyHead(t.id), t.body, Inner(h), k) + HelperLines(CatchHead(t.id), t.handler, Inner(h), k);
            var call := Here(h == k, TryRun(t.id)) + LinesSeq(t.fin, h, k) + DispatchLines(t.id, t.dispatch, h == k);
            Lines(t, h, k) == Here(h == k, TryOpen(t.id)) + (helpers + call) + Here(h == k, Close)
  {
    var open, close := Here(h == k, TryOpen(t.id)), Here(h == k, Close);
    var helpers := HelperLines(BodyHead(t.id), t.body, Inner(h), k) + HelperLines(CatchHead(t.id), t.handler, Inner(h), k);
    var call := Here(h == k, TryRun(t.id)) + LinesSeq(t.fin, h, k) + DispatchLines(t.id, t.dispatch, h == k);
    assert Lines(t, h, k) == open + helpers + (call + close);
    Regroup(open + helpers, call, close);
    Regroup(open, helpers, call);
  }

  /** The helpers of a function body are all defined outside other functions if and only if its try
      statements nest at most eight deep. */
  lemma HelpersAtFileScopeIff(body: seq<Stmt>, p: Place, ids: Ids)
    ensures (forall k :: 0 <= k < BUFFERS ==> HeadsAtTop(LinesSeq(LowerSeq(body, p, ids).code, 0, k), if k == 0 then 1 else 0))
            <==> TryDepthSeq(body) < BUFFERS
  {
    var code := LowerSeq(body, p, ids).code;
    DepthKeptSeq(body, p, ids);
    forall k | 0 <= k < BUFFERS
      ensures HeadsAtTop(LinesSeq(code, 0, k), if k == 0 then 1 else 0) <==> Fits(0, k, TryDepthSeq(body))
    {
      HeadsSeq(code, 0, k, if k == 0 then 1 else 0);
    }
    var last := BUFFERS - 1;
    assert HeadsAtTop(LinesSeq(code, 0, last), 0) <==> Fits(0, last, TryDepthSeq(body));
    assert forall k :: 0 <= k < BUFFERS && TryDepthSeq(body) < BUFFERS ==> Fits(0, k, TryDepthSeq(body));
  }

  /** n tries, each in the body of the one before. */
  function Nest(n: nat): Stmt { if n == 0 then SBreak else STry([Nest(n - 1)], [], []) }

  lemma {:induction false} NestDepth(n: nat)
    ensures TryDepth(Nest(n)) == n
  {
    if n > 0 {
      NestDepth(n - 1);
      assert [Nest(n - 1)][1..] == [];
    }
  }

  /** Eight nested tries are compiled to helpers at file scope, nine are not. */
  lemma NineTriesAreTooMany(p: Place, ids: Ids)
    ensures forall k :: 0 <= k < BUFFERS ==> HeadsAtTop(LinesSeq(LowerSeq([Nest(8)], p, ids).code, 0, k), if k == 0 then 1 else 0)
    ensures exists k :: 0 <= k < BUFFERS && !HeadsAtTop(LinesSeq(LowerSeq([Nest(9)], p, ids).code, 0, k), if k == 0 then 1 else 0)
  {
    NestDepth(8);
    NestDepth(9);
    assert TryDepthSeq([Nest(8)]) == 8 && TryDepthSeq([Nest(9)]) == 9;
    HelpersAtFileScopeIff([Nest(8)], p, ids);
    HelpersAtFileScopeIff([Nest(9)], p, ids);
  }
}
