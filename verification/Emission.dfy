/** The emitter itself: it appends lines to the C file, switches to one buffer per try nesting
    level for the helper functions, and saves and restores its fields around them. */
module Emission {
  import opened Basics
  import opened SourceLanguage
  import opened TargetLanguage
  import opened Lowering

  /** One line of C, or a fixed group of lines. */
  datatype CLine =
    | Simple(op: Op)
    | OpenIf(c: ExprId) | Else
    | OpenWhile(c: ExprId) | OpenDo | CloseDo(c: ExprId) | OpenFor(cond: Option<ExprId>)
    | OpenForeach(e: ExprId, v: LoopVars)
    | Open | Close
    | TryOpen(id: nat) | TryRun(id: nat) | Dispatched(id: nat, d: Dispatch)
    | BodyHead(id: nat) | CatchHead(id: nat)

  /** The buffers: the C file is number 0, helper definitions of nesting level n go to number n, those of
      all deeper levels to the last one. */
  const BUFFERS: nat := 9

  function Inner(h: nat): nat { if h > 7 then 8 else h + 1 }

  // ----- The lines a tree stands for -----

  function Here(same: bool, l: CLine): seq<CLine> { if same then [l] else [] }

  /** What code that is written to buffer h adds to buffer k. */
  function Lines(t: Code, h: nat, k: nat): seq<CLine>
    decreases t, 0
  {
    match t
    case Line(op) => Here(h == k, Simple(op))
    case If(c, thn, hasElse, els) =>
      Here(h == k, OpenIf(c)) + LinesSeq(thn, h, k) + Here(hasElse && h == k, Else) + LinesSeq(els, h, k) + Here(h == k, Close)
    case While(c, body) => Here(h == k, OpenWhile(c)) + LinesSeq(body, h, k) + Here(h == k, Close)
    case Do(body, c) => Here(h == k, OpenDo) + LinesSeq(body, h, k) + Here(h == k, CloseDo(c))
    case For(cond, body) => Here(h == k, OpenFor(cond)) + LinesSeq(body, h, k) + Here(h == k, Close)
    case Foreach(e, v, body) => Here(h == k, OpenForeach(e, v)) + LinesSeq(body, h, k) + Here(h == k, Close)
    case Block(body) => Here(h == k, Open) + LinesSeq(body, h, k) + Here(h == k, Close)
    case TryBlock(id, body, handler, fin, dispatch) =>
      Here(h == k, TryOpen(id))
      + ((Here(Inner(h) == k, BodyHead(id)) + LinesSeq(body, Inner(h), k) + Here(Inner(h) == k, Close))
         + (Here(Inner(h) == k, CatchHead(id)) + LinesSeq(handler, Inner(h), k) + Here(Inner(h) == k, Close)))
      + (Here(h == k, TryRun(id)) + LinesSeq(fin, h, k) + DispatchLines(id, dispatch, h == k) + Here(h == k, Close))
  }

  function LinesSeq(ts: seq<Code>, h: nat, k: nat): seq<CLine>
    decreases ts, 0
  {
    if ts == [] then [] else Lines(ts[0], h, k) + LinesSeq(ts[1..], h, k)
  }

  function DispatchLines(id: nat, ds: seq<Dispatch>, same: bool): seq<CLine> {
    if ds == [] then [] else Here(same, Dispatched(id, ds[0])) + DispatchLines(id, ds[1..], same)
  }

  lemma {:induction false} LinesAppend(a: seq<Code>, b: seq<Code>, h: nat, k: nat)
    ensures LinesSeq(a + b, h, k) == LinesSeq(a, h, k) + LinesSeq(b, h, k)
  {
    if a == [] {
      assert a + b == b;
    } else {
      assert (a + b)[1..] == a[1..] + b;
      LinesAppend(a[1..], b, h, k);
    }
  }

  lemma LinesOne(t: Code, h: nat, k: nat)
    ensures LinesSeq([t], h, k) == Lines(t, h, k)
  {
  }

  // ----- What a stretch of emission adds to the buffers -----

  type Buffers = b: seq<seq<CLine>> | |b| == BUFFERS witness seq(BUFFERS, _ => [])

  ghost predicate AddedLine(b0: Buffers, b1: Buffers, h: nat, l: CLine) {
    forall k | 0 <= k < BUFFERS :: b1[k] == b0[k] + Here(h == k, l)
  }

  ghost predicate AddedDispatches(b0: Buffers, b1: Buffers, h: nat, id: nat, ds: seq<Dispatch>) {
    forall k | 0 <= k < BUFFERS :: b1[k] == b0[k] + DispatchLines(id, ds, h == k)
  }

  ghost predicate Added(b0: Buffers, b1: Buffers, h: nat, code: seq<Code>) {
    forall k | 0 <= k < BUFFERS :: b1[k] == b0[k] + LinesSeq(code, h, k)
  }

  lemma AddedThen(b0: Buffers, b1: Buffers, b2: Buffers, h: nat, x: seq<Code>, y: seq<Code>)
    requires Added(b0, b1, h, x) && Added(b1, b2, h, y)
    ensures Added(b0, b2, h, x + y)
  {
    forall k | 0 <= k < BUFFERS ensures b2[k] == b0[k] + LinesSeq(x + y, h, k) {
      LinesAppend(x, y, h, k);
      Regroup(b0[k], LinesSeq(x, h, k), LinesSeq(y, h, k));
    }
  }

  lemma Regroup3(x: seq<CLine>, a: seq<CLine>, b: seq<CLine>, c: seq<CLine>)
    ensures x + a + b + c == x + (a + b + c)
  {
    Regroup(x, a, b);
    Regroup(x, a + b, c);
  }

  lemma Regroup5(x: seq<CLine>, a: seq<CLine>, b: seq<CLine>, c: seq<CLine>, d: seq<CLine>, e: seq<CLine>)
    ensures x + a + b + c + d + e == x + (a + b + c + d + e)
  {
    Regroup3(x, a, b, c);
    Regroup(x, a + b + c, d);
    Regroup(x, a + b + c + d, e);
  }

  /** An opening line, code, and a closing line: the lines of one tree. */
  lemma Framed(b0: Buffers, b1: Buffers, b2: Buffers, b3: Buffers, h: nat, open: CLine, code: seq<Code>, close: CLine, t: Code)
    requires AddedLine(b0, b1, h, open) && Added(b1, b2, h, code) && AddedLine(b2, b3, h, close)
    requires forall k | 0 <= k < BUFFERS :: Lines(t, h, k) == Here(h == k, open) + LinesSeq(code, h, k) + Here(h == k, close)
    ensures Added(b0, b3, h, [t])
  {
    forall k | 0 <= k < BUFFERS ensures b3[k] == b0[k] + LinesSeq([t], h, k) {
      LinesOne(t, h, k);
      Regroup3(b0[k], Here(h == k, open), LinesSeq(code, h, k), Here(h == k, close));
    }
  }

  /** The lines around the body of a loop without initialisers. */
  function LoopOpen(t: Code): CLine
    requires t.While? || t.Do? || t.Foreach?
  {
    if t.While? then OpenWhile(t.c) else if t.Do? then OpenDo else OpenForeach(t.e, t.v)
  }

  function LoopClose(t: Code): CLine { if t.Do? then CloseDo(t.c) else Close }

  lemma LoopLines(t: Code, h: nat, k: nat)
    requires t.While? || t.Do? || t.Foreach?
    ensures Lines(t, h, k) == Here(h == k, LoopOpen(t)) + LinesSeq(t.body, h, k) + Here(h == k, LoopClose(t))
  {
  }

  class Codegen {
    var bufs: Buffers
    var out: nat
    var helperDepth: nat
    var inHelper: bool
    var loopDepth: nat
    var loopLabels: seq<nat>
    var labelId: nat
    var tryId: nat
    const valued: bool

    ghost predicate Valid()
      reads this
    {
      out < BUFFERS && (helperDepth == out || (out == 8 && helperDepth == 7))
    }

    function CurrentPlace(): Place
      reads this
    {
      Place(inHelper, loopDepth, loopLabels, valued)
    }

    function CurrentIds(): Ids
      reads this
    {
      Ids(labelId, tryId)
    }

    constructor (valued: bool)
      ensures Valid() && CurrentPlace() == Place(false, 0, [], valued) && CurrentIds() == Ids(0, 0) && out == 0
      ensures forall k: nat | k < BUFFERS :: bufs[k] == []
    {
      bufs := seq(BUFFERS, _ => []);
      out, helperDepth, inHelper, loopDepth, loopLabels, labelId, tryId := 0, 0, false, 0, [], 0, 0;
      this.valued := valued;
    }

    method Put(l: CLine)
      requires Valid()
      modifies this`bufs
      ensures Valid() && AddedLine(old(bufs), bufs, out, l)
    {
      bufs := bufs[out := bufs[out] + [l]];
    }

    method PutOp(op: Op)
      requires Valid()
      modifies this`bufs
      ensures Valid() && Added(old(bufs), bufs, out, [Line(op)])
    {
      Put(Simple(op));
      forall k | 0 <= k < BUFFERS ensures bufs[k] == old(bufs)[k] + LinesSeq([Line(op)], out, k) {
        LinesOne(Line(op), out, k);
      }
    }

    method EmitStmt(s: Stmt)
      requires Valid()
      modifies this
      ensures Valid() && CurrentPlace() == old(CurrentPlace()) && out == old(out)
      ensures var l := LowerStmt(s, old(CurrentPlace()), old(CurrentIds()));
              CurrentIds() == l.ids && Added(old(bufs), bufs, out, l.code)
      decreases s, 2
    {
      match s
      case SExec(e) => PutOp(Evaluate(e));
      case SEcho(es) => EmitEchoes(es);
      case SIf(c, thn, els) => EmitIf(c, thn, els);
      case SWhile(c, body) => EmitLoop(s);
      case SDo(body, c) => EmitLoop(s);
      case SFor(init, cond, step, body) => EmitFor(s);
      case SForeach(e, v, body) => EmitLoop(s);
      case SBreak =>
        if inHelper && loopDepth == 0 { PutOp(LeaveHelper(2)); } else { PutOp(BreakLoop); }
      case SContinue =>
        if inHelper && loopDepth == 0 { PutOp(LeaveHelper(3)); }
        else if |loopLabels| > 0 { PutOp(Goto(loopLabels[|loopLabels| - 1])); }
        else { PutOp(ContinueLoop); }
      case SReturn(value) => EmitReturn(value);
      case SThrow(e) => PutOp(Raising(e));
      case SBlock(body) =>
        ghost var b0, h, l := bufs, out, LowerSeq(body, CurrentPlace(), CurrentIds());
        Put(Open);
        ghost var b1 := bufs;
        EmitSeq(body);
        ghost var b2 := bufs;
        Put(Close);
        Framed(b0, b1, b2, bufs, h, Open, l.code, Close, Block(l.code));
      case STry(body, clauses, fin) => EmitTry(s);
    }

    method EmitReturn(value: Option<ExprId>)
      requires Valid()
      modifies this`bufs
      ensures Valid() && Added(old(bufs), bufs, out, [Line(ReturnOp(value, CurrentPlace()))])
    {
      if inHelper {
        if value.Some? { PutOp(SaveReturn(value.value)); } else { PutOp(LeaveHelper(1)); }
      } else {
        if value.Some? { PutOp(ReturnExpr(value.value)); } else { PutOp(ReturnVoid); }
      }
    }

    method EmitEchoes(es: seq<ExprId>)
      requires Valid()
      modifies this`bufs
      ensures Valid() && Added(old(bufs), bufs, out, EchoLines(es))
    {
      ghost var done: seq<Code> := [];
      var i := 0;
      while i < |es|
        invariant Valid() && i <= |es|
        invariant Added(old(bufs), bufs, out, done) && EchoLines(es) == done + EchoLines(es[i..])
      {
        ghost var b := bufs;
        PutOp(Echo(es[i]));
        AddedThen(old(bufs), b, bufs, out, done, [Line(Echo(es[i]))]);
        done := done + [Line(Echo(es[i]))];
        i := i + 1;
      }
      assert done + [] == done;
    }

    method EmitEvals(es: seq<ExprId>)
      requires Valid()
      modifies this`bufs
      ensures Valid() && Added(old(bufs), bufs, out, EvalLines(es))
    {
      ghost var done: seq<Code> := [];
      var i := 0;
      while i < |es|
        invariant Valid() && i <= |es|
        invariant Added(old(bufs), bufs, out, done) && EvalLines(es) == done + EvalLines(es[i..])
      {
        ghost var b := bufs;
        PutOp(Evaluate(es[i]));
        AddedThen(old(bufs), b, bufs, out, done, [Line(Evaluate(es[i]))]);
        done := done + [Line(Evaluate(es[i]))];
        i := i + 1;
      }
      assert done + [] == done;
    }

    method EmitSeq(ss: seq<Stmt>)
      requires Valid()
      modifies this
      ensures Valid() && CurrentPlace() == old(CurrentPlace()) && out == old(out)
      ensures var l := LowerSeq(ss, old(CurrentPlace()), old(CurrentIds()));
              CurrentIds() == l.ids && Added(old(bufs), bufs, out, l.code)
      decreases ss, 0
    {
      ghost var p, h := CurrentPlace(), out;
      ghost var all, done: seq<Code> := LowerSeq(ss, p, CurrentIds()), [];
      var i := 0;
      while i < |ss|
        invariant Valid() && i <= |ss| && CurrentPlace() == p && out == h
        invariant Added(old(bufs), bufs, h, done)
        invariant var rest := LowerSeq(ss[i..], p, CurrentIds()); all == Lowered(done + rest.code, rest.ids)
      {
        ghost var b, first := bufs, LowerStmt(ss[i], p, CurrentIds());
        assert ss[i..][0] == ss[i] && ss[i..][1..] == ss[i + 1..];
        EmitStmt(ss[i]);
        AddedThen(old(bufs), b, bufs, h, done, first.code);
        done := done + first.code;
        i := i + 1;
      }
      assert done + [] == done;
    }

    method EmitIf(c: ExprId, thn: seq<Stmt>, els: seq<Stmt>)
      requires Valid()
      modifies this
      ensures Valid() && CurrentPlace() == old(CurrentPlace()) && out == old(out)
      ensures var l := LowerStmt(SIf(c, thn, els), old(CurrentPlace()), old(CurrentIds()));
              CurrentIds() == l.ids && Added(old(bufs), bufs, out, l.code)
      decreases SIf(c, thn, els), 0
    {
      ghost var b0, h := bufs, out;
      ghost var t := LowerSeq(thn, CurrentPlace(), CurrentIds());
      ghost var e := LowerSeq(els, CurrentPlace(), t.ids);
      Put(OpenIf(c));
      ghost var b1 := bufs;
      EmitSeq(thn);
      ghost var b2 := bufs;
      if |els| > 0 { Put(Else); }
      ghost var b3 := bufs;
      EmitSeq(els);
      ghost var b4 := bufs;
      Put(Close);
      ghost var tree := If(c, t.code, els != [], e.code);
      forall k | 0 <= k < BUFFERS ensures bufs[k] == b0[k] + LinesSeq([tree], h, k) {
        LinesOne(tree, h, k);
        Regroup5(b0[k], Here(h == k, OpenIf(c)), LinesSeq(t.code, h, k), Here(els != [] && h == k, Else),
                 LinesSeq(e.code, h, k), Here(h == k, Close));
      }
    }

    /** The body and label of a loop, with the continue label pushed meanwhile. */
    method EmitLoopBody(body: seq<Stmt>)
      requires Valid()
      modifies this
      ensures Valid() && CurrentPlace() == old(CurrentPlace()) && out == old(out)
      ensures var l := LowerSeq(body, old(CurrentPlace()).InLoop(old(labelId)), Ids(old(labelId) + 1, old(tryId)));
              CurrentIds() == l.ids && Added(old(bufs), bufs, out, l.code + [Line(Label(old(labelId)))])
      decreases body, 1
    {
      ghost var b0, labels := bufs, loopLabels;
      loopDepth := loopDepth + 1;
      var lid := labelId;
      labelId := labelId + 1;
      loopLabels := loopLabels + [lid];
      ghost var l := LowerSeq(body, CurrentPlace(), CurrentIds());
      EmitSeq(body);
      ghost var b1 := bufs;
      PutOp(Label(lid));
      AddedThen(b0, b1, bufs, out, l.code, [Line(Label(lid))]);
      loopLabels := loopLabels[..|loopLabels| - 1];
      assert loopLabels == labels;
      loopDepth := loopDepth - 1;
    }

    method EmitLoop(s: Stmt)
      requires s.SWhile? || s.SDo? || s.SForeach?
      requires Valid()
      modifies this
      ensures Valid() && CurrentPlace() == old(CurrentPlace()) && out == old(out)
      ensures var l := LowerStmt(s, old(CurrentPlace()), old(CurrentIds()));
              CurrentIds() == l.ids && Added(old(bufs), bufs, out, l.code)
      decreases s, 0
    {
      ghost var b0, h, tree := bufs, out, LowerStmt(s, CurrentPlace(), CurrentIds()).code[0];
      var open := if s.SWhile? then OpenWhile(s.c) else if s.SDo? then OpenDo else OpenForeach(s.e, s.v);
      var close := if s.SDo? then CloseDo(s.c) else Close;
      assert LoopOpen(tree) == open && LoopClose(tree) == close;
      Put(open);
      ghost var b1 := bufs;
      EmitLoopBody(s.body);
      ghost var b2 := bufs;
      Put(close);
      forall k | 0 <= k < BUFFERS
        ensures Lines(tree, h, k) == Here(h == k, open) + LinesSeq(tree.body, h, k) + Here(h == k, close)
      {
        LoopLines(tree, h, k);
      }
      Framed(b0, b1, b2, bufs, h, open, tree.body, close, tree);
    }

    method EmitFor(s: Stmt)
      requires s.SFor?
      requires Valid()
      modifies this
      ensures Valid() && CurrentPlace() == old(CurrentPlace()) && out == old(out)
      ensures var l := LowerStmt(s, old(CurrentPlace()), old(CurrentIds()));
              CurrentIds() == l.ids && Added(old(bufs), bufs, out, l.code)
      decreases s, 1
    {
      ghost var b0, h := bufs, out;
      ghost var loop := For(s.cond, LowerSeq(s.body, CurrentPlace().InLoop(labelId), Ids(labelId + 1, tryId)).code
                                    + ([Line(Label(labelId))] + EvalLines(s.step)));
      Put(Open);
      ghost var b1 := bufs;
      EmitEvals(s.init);
      ghost var b2 := bufs;
      EmitForLoop(s);
      ghost var b3 := bufs;
      AddedThen(b1, b2, b3, h, EvalLines(s.init), [loop]);
      Put(Close);
      Framed(b0, b1, b3, bufs, h, Open, EvalLines(s.init) + [loop], Close, Block(EvalLines(s.init) + [loop]));
    }

    method EmitForLoop(s: Stmt)
      requires s.SFor?
      requires Valid()
      modifies this
      ensures Valid() && CurrentPlace() == old(CurrentPlace()) && out == old(out)
      ensures var l := LowerSeq(s.body, old(CurrentPlace()).InLoop(old(labelId)), Ids(old(labelId) + 1, old(tryId)));
              && CurrentIds() == l.ids
              && Added(old(bufs), bufs, out,
                       [For(s.cond, l.code + ([Line(Label(old(labelId)))] + EvalLines(s.step)))])
      decreases s, 0
    {
      ghost var b0, h := bufs, out;
      ghost var mark := [Line(Label(labelId))];
      ghost var l := LowerSeq(s.body, CurrentPlace().InLoop(labelId), Ids(labelId + 1, tryId));
      Put(OpenFor(s.cond));
      ghost var b1 := bufs;
      EmitLoopBody(s.body);
      ghost var b2 := bufs;
      EmitEvals(s.step);
      ghost var b3 := bufs;
      AddedThen(b1, b2, b3, h, l.code + mark, EvalLines(s.step));
      ghost var code := l.code + (mark + EvalLines(s.step));
      assert l.code + mark + EvalLines(s.step) == code;
      Put(Close);
      Framed(b0, b1, b3, bufs, h, OpenFor(s.cond), code, Close, For(s.cond, code));
    }

    method EmitClauses(clauses: seq<Clause>)
      requires Valid()
      modifies this
      ensures Valid() && CurrentPlace() == old(CurrentPlace()) && out == old(out)
      ensures var l := LowerClauses(clauses, old(CurrentPlace()), old(CurrentIds()));
              CurrentIds() == l.ids && Added(old(bufs), bufs, out, l.code)
      decreases clauses, 0
    {
      ghost var p, h := CurrentPlace(), out;
      ghost var all, done: seq<Code> := LowerClauses(clauses, p, CurrentIds()), [];
      var rest := clauses;
      while rest != []
        invariant Valid() && CurrentPlace() == p && out == h
        invariant |rest| <= |clauses| && rest == clauses[|clauses| - |rest|..]
        invariant Added(old(bufs), bufs, h, done)
        invariant var l := LowerClauses(rest, p, CurrentIds()); all == Lowered(done + l.code, l.ids)
        decreases |rest|
      {
        var cl := rest[0];
        assert cl == clauses[|clauses| - |rest|];
        ghost var b0, first := bufs, LowerSeq(cl.body, p, CurrentIds());
        ghost var bind := [Line(BindEx(cl.ty, cl.v))];
        PutOp(BindEx(cl.ty, cl.v));
        ghost var b1 := bufs;
        EmitSeq(cl.body);
        AddedThen(b0, b1, bufs, h, bind, first.code);
        AddedThen(old(bufs), b0, bufs, h, done, bind + first.code);
        rest := rest[1..];
        Regroup(done, bind + first.code, LowerClauses(rest, p, CurrentIds()).code);
        done := done + (bind + first.code);
      }
      assert done + [] == done;
    }

    method PutDispatch(id: nat, d: Dispatch, ghost b0: Buffers, ghost done: seq<Dispatch>)
      requires Valid() && AddedDispatches(b0, bufs, out, id, done)
      modifies this`bufs
      ensures Valid() && AddedDispatches(b0, bufs, out, id, done + [d])
    {
      Put(Dispatched(id, d));
      forall k | 0 <= k < BUFFERS ensures bufs[k] == b0[k] + DispatchLines(id, done + [d], out == k) {
        DispatchLinesSnoc(id, done, d, out == k);
      }
    }

    method EmitDispatches(id: nat)
      requires Valid()
      modifies this`bufs
      ensures Valid() && AddedDispatches(old(bufs), bufs, out, id, Dispatches(CurrentPlace()))
    {
      ghost var b0 := bufs;
      ghost var done: seq<Dispatch> := [];
      PutDispatch(id, Rethrow, b0, done);
      done := done + [Rethrow];
      var second := if inHelper then Forward else OnReturn(valued);
      PutDispatch(id, second, b0, done);
      done := done + [second];
      if !inHelper && loopDepth > 0 {
        PutDispatch(id, OnBreak, b0, done);
        done := done + [OnBreak];
        var last := if |loopLabels| > 0 then OnContinueGoto(loopLabels[|loopLabels| - 1]) else OnContinue;
        PutDispatch(id, last, b0, done);
        done := done + [last];
      }
      assert done == Dispatches(CurrentPlace());
    }

    method EmitTry(s: Stmt)
      requires s.STry?
      requires Valid()
      modifies this
      ensures Valid() && CurrentPlace() == old(CurrentPlace()) && out == old(out)
      ensures var l := LowerStmt(s, old(CurrentPlace()), old(CurrentIds()));
              CurrentIds() == l.ids && Added(old(bufs), bufs, out, l.code)
      decreases s, 1
    {
      ghost var b0, h, p := bufs, out, CurrentPlace();
      ghost var helpers := LowerHelpers(s, p, CurrentIds().(tryId := tryId + 1));
      ghost var fin := LowerSeq(s.fin, p, helpers.ids);
      ghost var tree := TryBlock(tryId, helpers.body, helpers.handler, fin.code, Dispatches(p));
      assert LowerStmt(s, p, CurrentIds()) == Lowered([tree], fin.ids);
      var id := tryId;
      tryId := tryId + 1;
      Put(TryOpen(id));
      ghost var b1, next := bufs, CurrentIds();
      assert CurrentPlace() == p && helpers == LowerHelpers(s, p, next);
      EmitHelpers(id, s);
      ghost var b2 := bufs;
      assert CurrentPlace() == p && CurrentIds() == helpers.ids;
      EmitCall(id, s.fin);
      TryAdded(b0, b1, b2, bufs, h, id, helpers, fin.code, Dispatches(p));
    }

    /** Run it, then `finally`, then whatever the helpers reported. */
    method EmitCall(id: nat, fin: seq<Stmt>)
      requires Valid()
      modifies this
      ensures Valid() && CurrentPlace() == old(CurrentPlace()) && out == old(out)
      ensures var f := LowerSeq(fin, old(CurrentPlace()), old(CurrentIds()));
              CurrentIds() == f.ids && AddedCall(old(bufs), bufs, out, id, f.code, Dispatches(CurrentPlace()))
      decreases fin, 1
    {
      ghost var b0, h, f := bufs, out, LowerSeq(fin, CurrentPlace(), CurrentIds());
      Put(TryRun(id));
      EmitSeq(fin);
      EmitDispatches(id);
      ghost var ds := Dispatches(CurrentPlace());
      Put(Close);
      forall k | 0 <= k < BUFFERS ensures bufs[k] == b0[k] + CallLines(id, f.code, ds, h, k) {
        Regroup3(b0[k], Here(h == k, TryRun(id)), LinesSeq(f.code, h, k), DispatchLines(id, ds, h == k));
        Regroup(b0[k], Here(h == k, TryRun(id)) + LinesSeq(f.code, h, k) + DispatchLines(id, ds, h == k), Here(h == k, Close));
      }
    }

    /** The two helpers go to the buffer of their nesting level; every field is put back afterwards. */
    method EmitHelpers(id: nat, s: Stmt)
      requires s.STry?
      requires Valid()
      modifies this
      ensures Valid() && CurrentPlace() == old(CurrentPlace()) && out == old(out)
      ensures var h := LowerHelpers(s, old(CurrentPlace()), old(CurrentIds()));
              CurrentIds() == h.ids && AddedHelpers(old(bufs), bufs, Inner(out), id, h)
      decreases s, 0
    {
      ghost var b0, h, g := bufs, LowerHelpers(s, CurrentPlace(), CurrentIds()), Inner(out);
      var savedOut, savedHelper, savedLoop := out, inHelper, loopDepth;
      var level := if helperDepth > 7 then 7 else helperDepth;
      out, inHelper, helperDepth, loopDepth := level + 1, true, level + 1, 0;
      EmitBodyHelper(id, s.body);
      ghost var b1 := bufs;
      EmitCatchHelper(id, s.clauses);
      assert out == g;
      HelpersAdded(b0, b1, bufs, g, id, h);
      loopDepth, helperDepth, inHelper, out := savedLoop, level, savedHelper, savedOut;
    }

    method EmitBodyHelper(id: nat, body: seq<Stmt>)
      requires Valid()
      modifies this
      ensures Valid() && CurrentPlace() == old(CurrentPlace()) && out == old(out)
      ensures var l := LowerSeq(body, old(CurrentPlace()), old(CurrentIds()));
              && CurrentIds() == l.ids
              && AddedHelper(old(bufs), bufs, out, BodyHead(id), l.code + [Line(ReturnNull)])
      decreases body, 1
    {
      ghost var b0, l := bufs, LowerSeq(body, CurrentPlace(), CurrentIds());
      Put(BodyHead(id));
      ghost var b1 := bufs;
      EmitSeq(body);
      ghost var b2 := bufs;
      PutOp(ReturnNull);
      ghost var b3 := bufs;
      AddedThen(b1, b2, b3, out, l.code, [Line(ReturnNull)]);
      Put(Close);
      HelperAdded(b0, b1, b3, bufs, out, BodyHead(id), l.code + [Line(ReturnNull)]);
    }

    method EmitCatchHelper(id: nat, clauses: seq<Clause>)
      requires Valid()
      modifies this
      ensures Valid() && CurrentPlace() == old(CurrentPlace()) && out == old(out)
      ensures var l := LowerClauses(clauses, old(CurrentPlace()), old(CurrentIds()));
              && CurrentIds() == l.ids
              && AddedHelper(old(bufs), bufs, out, CatchHead(id), HandlerCode(clauses, l.code))
      decreases clauses, 1
    {
      ghost var b0, l := bufs, LowerClauses(clauses, CurrentPlace(), CurrentIds());
      Put(CatchHead(id));
      ghost var b1 := bufs;
      EmitClauses(clauses);
      EmitReturns(|clauses| == 0, b1, l.code);
      ghost var b2 := bufs;
      Put(Close);
      HelperAdded(b0, b1, b2, bufs, out, CatchHead(id), HandlerCode(clauses, l.code));
    }

    method EmitReturns(noClauses: bool, ghost b0: Buffers, ghost code: seq<Code>)
      requires Valid() && Added(b0, bufs, out, code)
      modifies this`bufs
      ensures Valid() && Added(b0, bufs, out, code + (if noClauses then [Line(ReturnEx)] else []) + [Line(ReturnNull)])
    {
      ghost var b1 := bufs;
      if noClauses {
        PutOp(ReturnEx);
        AddedThen(b0, b1, bufs, out, code, [Line(ReturnEx)]);
      } else {
        assert code + [] == code;
      }
      ghost var b2 := bufs;
      PutOp(ReturnNull);
      AddedThen(b0, b2, bufs, out, code + (if noClauses then [Line(ReturnEx)] else []), [Line(ReturnNull)]);
    }
  }

  /** One helper function: its head, its body and its closing brace. */
  function HelperLines(head: CLine, code: seq<Code>, h: nat, k: nat): seq<CLine> {
    Here(h == k, head) + LinesSeq(code, h, k) + Here(h == k, Close)
  }

  ghost predicate AddedHelper(b0: Buffers, b1: Buffers, h: nat, head: CLine, code: seq<Code>) {
    forall k | 0 <= k < BUFFERS :: b1[k] == b0[k] + HelperLines(head, code, h, k)
  }

  lemma HelperAdded(b0: Buffers, b1: Buffers, b2: Buffers, b3: Buffers, h: nat, head: CLine, code: seq<Code>)
    requires AddedLine(b0, b1, h, head) && Added(b1, b2, h, code) && AddedLine(b2, b3, h, Close)
    ensures AddedHelper(b0, b3, h, head, code)
  {
    forall k | 0 <= k < BUFFERS ensures b3[k] == b0[k] + HelperLines(head, code, h, k) {
      Regroup3(b0[k], Here(h == k, head), LinesSeq(code, h, k), Here(h == k, Close));
    }
  }

  function CallLines(id: nat, fin: seq<Code>, ds: seq<Dispatch>, h: nat, k: nat): seq<CLine> {
    Here(h == k, TryRun(id)) + LinesSeq(fin, h, k) + DispatchLines(id, ds, h == k) + Here(h == k, Close)
  }

  ghost predicate AddedCall(b0: Buffers, b1: Buffers, h: nat, id: nat, fin: seq<Code>, ds: seq<Dispatch>) {
    forall k | 0 <= k < BUFFERS :: b1[k] == b0[k] + CallLines(id, fin, ds, h, k)
  }

  ghost predicate AddedHelpers(b0: Buffers, b1: Buffers, h: nat, id: nat, l: Helpers) {
    forall k | 0 <= k < BUFFERS ::
      b1[k] == b0[k] + (HelperLines(BodyHead(id), l.body, h, k) + HelperLines(CatchHead(id), l.handler, h, k))
  }

  lemma HelpersAdded(b0: Buffers, b1: Buffers, b2: Buffers, h: nat, id: nat, l: Helpers)
    requires AddedHelper(b0, b1, h, BodyHead(id), l.body) && AddedHelper(b1, b2, h, CatchHead(id), l.handler)
    ensures AddedHelpers(b0, b2, h, id, l)
  {
    forall k | 0 <= k < BUFFERS
      ensures b2[k] == b0[k] + (HelperLines(BodyHead(id), l.body, h, k) + HelperLines(CatchHead(id), l.handler, h, k))
    {
      Regroup(b0[k], HelperLines(BodyHead(id), l.body, h, k), HelperLines(CatchHead(id), l.handler, h, k));
    }
  }

  lemma TryAdded(b0: Buffers, b1: Buffers, b2: Buffers, b3: Buffers, h: nat, id: nat, l: Helpers, fin: seq<Code>, ds: seq<Dispatch>)
    requires AddedLine(b0, b1, h, TryOpen(id)) && AddedHelpers(b1, b2, Inner(h), id, l) && AddedCall(b2, b3, h, id, fin, ds)
    ensures Added(b0, b3, h, [TryBlock(id, l.body, l.handler, fin, ds)])
  {
    var t := TryBlock(id, l.body, l.handler, fin, ds);
    forall k | 0 <= k < BUFFERS ensures b3[k] == b0[k] + LinesSeq([t], h, k) {
      LinesOne(t, h, k);
      var open := Here(h == k, TryOpen(id));
      var helpers := HelperLines(BodyHead(id), l.body, Inner(h), k) + HelperLines(CatchHead(id), l.handler, Inner(h), k);
      Regroup(b0[k], open, helpers);
      Regroup(b0[k], open + helpers, CallLines(id, fin, ds, h, k));
    }
  }

  lemma {:induction false} DispatchLinesSnoc(id: nat, ds: seq<Dispatch>, d: Dispatch, same: bool)
    ensures DispatchLines(id, ds + [d], same) == DispatchLines(id, ds, same) + Here(same, Dispatched(id, d))
  {
    if ds != [] {
      assert (ds + [d])[1..] == ds[1..] + [d];
      DispatchLinesSnoc(id, ds[1..], d, same);
    }
  }
}
