/** Every label and every helper pair is defined exactly once in the emitted code, so a `goto`
    and a call of hp_try_run name one place. */
module LoweringNames {
  import opened SourceLanguage
  import opened TargetLanguage
  import opened Lowering

  datatype Name = LabelName(n: nat) | HelperName(n: nat)

  /** How often code defines a name. */
  function Defs(t: Code, x: Name): nat
    decreases t, 0
  {
    match t
    case Line(op) => if op.Label? && x == LabelName(op.n) then 1 else 0
    case If(_, thn, _, els) => DefsSeq(thn, x) + DefsSeq(els, x)
    case While(_, body) => DefsSeq(body, x)
    case Do(body, _) => DefsSeq(body, x)
    case For(_, body) => DefsSeq(body, x)
    case Foreach(_, _, body) => DefsSeq(body, x)
    case Block(body) => DefsSeq(body, x)
    case TryBlock(id, body, handler, fin, _) =>
      (if x == HelperName(id) then 1 else 0) + DefsSeq(body, x) + DefsSeq(handler, x) + DefsSeq(fin, x)
  }

  function DefsSeq(ts: seq<Code>, x: Name): nat
    decreases ts, 0
  {
    if ts == [] then 0 else Defs(ts[0], x) + DefsSeq(ts[1..], x)
  }

  lemma {:induction false} DefsAppend(a: seq<Code>, b: seq<Code>, x: Name)
    ensures DefsSeq(a + b, x) == DefsSeq(a, x) + DefsSeq(b, x)
  {
    if a == [] {
      assert a + b == b;
    } else {
      assert (a + b)[1..] == a[1..] + b;
      DefsAppend(a[1..], b, x);
    }
  }

  lemma DefsOne(t: Code, x: Name)
    ensures DefsSeq([t], x) == Defs(t, x)
  {
  }

  /** The names handed out between two states of the counters, each of them once. */
  function Issued(a: Ids, b: Ids, x: Name): nat {
    match x
    case LabelName(n) => if a.labelId <= n < b.labelId then 1 else 0
    case HelperName(n) => if a.tryId <= n < b.tryId then 1 else 0
  }

  predicate Later(a: Ids, b: Ids) { a.labelId <= b.labelId && a.tryId <= b.tryId }

  lemma {:induction false} EachNameOnce(s: Stmt, p: Place, ids: Ids, x: Name)
    ensures var l := LowerStmt(s, p, ids); Later(ids, l.ids) && DefsSeq(l.code, x) == Issued(ids, l.ids, x)
    decreases s, 2
  {
    match s
    case SEcho(es) => EchoDefinesNothing(es, x);
    case SFor(_, _, _, _) => EachNameOnceFor(s, p, ids, x);
    case SIf(_, _, _) => EachNameOnceIf(s, p, ids, x);
    case SWhile(_, body) => EachNameOnceLoop(body, [], p, ids, x); DefsOne(LowerStmt(s, p, ids).code[0], x);
    case SDo(body, _) => EachNameOnceLoop(body, [], p, ids, x); DefsOne(LowerStmt(s, p, ids).code[0], x);
    case SForeach(_, _, body) => EachNameOnceLoop(body, [], p, ids, x); DefsOne(LowerStmt(s, p, ids).code[0], x);
    case SBlock(body) => EachNameOnceSeq(body, p, ids, x); DefsOne(LowerStmt(s, p, ids).code[0], x);
    case STry(_, _, _) => EachNameOnceTry(s, p, ids, x);
    case _ =>
  }

  lemma {:induction false} EachNameOnceIf(s: Stmt, p: Place, ids: Ids, x: Name)
    requires s.SIf?
    ensures var l := LowerStmt(s, p, ids); Later(ids, l.ids) && DefsSeq(l.code, x) == Issued(ids, l.ids, x)
    decreases s, 0
  {
    EachNameOnceSeq(s.thn, p, ids, x);
    EachNameOnceSeq(s.els, p, LowerSeq(s.thn, p, ids).ids, x);
    DefsOne(LowerStmt(s, p, ids).code[0], x);
  }

  lemma {:induction false} EachNameOnceFor(s: Stmt, p: Place, ids: Ids, x: Name)
    requires s.SFor?
    ensures var l := LowerStmt(s, p, ids); Later(ids, l.ids) && DefsSeq(l.code, x) == Issued(ids, l.ids, x)
    decreases s, 0
  {
    EachNameOnceLoop(s.body, s.step, p, ids, x);
    var l := LowerSeq(s.body, p.InLoop(ids.labelId), ids.(labelId := ids.labelId + 1));
    var loop := For(s.cond, l.code + ([Line(Label(ids.labelId))] + EvalLines(s.step)));
    DefsOne(loop, x);
    DefsAppend(EvalLines(s.init), [loop], x);
    EvalDefinesNothing(s.init, x);
    DefsOne(Block(EvalLines(s.init) + [loop]), x);
  }

  lemma {:induction false} EachNameOnceTry(s: Stmt, p: Place, ids: Ids, x: Name)
    requires s.STry?
    ensures var l := LowerStmt(s, p, ids); Later(ids, l.ids) && DefsSeq(l.code, x) == Issued(ids, l.ids, x)
    decreases s, 1
  {
    var next := ids.(tryId := ids.tryId + 1);
    EachNameOnceHelpers(s, p, next, x);
    var h := LowerHelpers(s, p, next);
    EachNameOnceSeq(s.fin, p, h.ids, x);
    var fin := LowerSeq(s.fin, p, h.ids);
    var t := TryBlock(ids.tryId, h.body, h.handler, fin.code, Dispatches(p));
    assert LowerStmt(s, p, ids) == Lowered([t], fin.ids);
    DefsOne(t, x);
    TryDefines(t, x);
  }

  lemma TryDefines(t: Code, x: Name)
    requires t.TryBlock?
    ensures Defs(t, x) == (if x == HelperName(t.id) then 1 else 0) + DefsSeq(t.body, x) + DefsSeq(t.handler, x) + DefsSeq(t.fin, x)
  {
  }

  lemma {:induction false} EachNameOnceSeq(ss: seq<Stmt>, p: Place, ids: Ids, x: Name)
    ensures var l := LowerSeq(ss, p, ids); Later(ids, l.ids) && DefsSeq(l.code, x) == Issued(ids, l.ids, x)
    decreases ss, 0
  {
    if ss != [] {
      var first := LowerStmt(ss[0], p, ids);
      EachNameOnce(ss[0], p, ids, x);
      EachNameOnceSeq(ss[1..], p, first.ids, x);
      DefsAppend(first.code, LowerSeq(ss[1..], p, first.ids).code, x);
    }
  }

  lemma {:induction false} EachNameOnceLoop(body: seq<Stmt>, step: seq<ExprId>, p: Place, ids: Ids, x: Name)
    ensures var l := LowerSeq(body, p.InLoop(ids.labelId), ids.(labelId := ids.labelId + 1));
            && Later(ids, l.ids)
            && DefsSeq(l.code + ([Line(Label(ids.labelId))] + EvalLines(step)), x) == Issued(ids, l.ids, x)
            && DefsSeq(l.code + [Line(Label(ids.labelId))], x) == Issued(ids, l.ids, x)
    decreases body, 1
  {
    var l := LowerSeq(body, p.InLoop(ids.labelId), ids.(labelId := ids.labelId + 1));
    var mark := [Line(Label(ids.labelId))];
    EachNameOnceSeq(body, p.InLoop(ids.labelId), ids.(labelId := ids.labelId + 1), x);
    DefsAppend(l.code, mark, x);
    DefsAppend(l.code, mark + EvalLines(step), x);
    DefsAppend(mark, EvalLines(step), x);
    DefsOne(mark[0], x);
    EvalDefinesNothing(step, x);
  }

  lemma {:induction false} EachNameOnceHelpers(s: Stmt, p: Place, ids: Ids, x: Name)
    requires s.STry?
    ensures var h := LowerHelpers(s, p, ids);
            Later(ids, h.ids) && DefsSeq(h.body, x) + DefsSeq(h.handler, x) == Issued(ids, h.ids, x)
    decreases s, 0
  {
    var b := LowerSeq(s.body, p.InTry(), ids);
    var c := LowerClauses(s.clauses, p.InTry(), b.ids);
    EachNameOnceSeq(s.body, p.InTry(), ids, x);
    EachNameOnceClauses(s.clauses, p.InTry(), b.ids, x);
    DefsAppend(b.code, [Line(ReturnNull)], x);
    var back := if s.clauses == [] then [Line(ReturnEx)] else [];
    DefsAppend(c.code, back, x);
    DefsAppend(c.code + back, [Line(ReturnNull)], x);
  }

  lemma {:induction false} EachNameOnceClauses(clauses: seq<Clause>, p: Place, ids: Ids, x: Name)
    ensures var l := LowerClauses(clauses, p, ids); Later(ids, l.ids) && DefsSeq(l.code, x) == Issued(ids, l.ids, x)
    decreases clauses, 0
  {
    if clauses != [] {
      var bind := [Line(BindEx(clauses[0].ty, clauses[0].v))];
      var first := LowerSeq(clauses[0].body, p, ids);
      var rest := LowerClauses(clauses[1..], p, first.ids);
      EachNameOnceSeq(clauses[0].body, p, ids, x);
      EachNameOnceClauses(clauses[1..], p, first.ids, x);
      DefsAppend(bind, first.code, x);
      DefsAppend(bind + first.code, rest.code, x);
    }
  }

  lemma {:induction false} EchoDefinesNothing(es: seq<ExprId>, x: Name)
    ensures DefsSeq(EchoLines(es), x) == 0
  {
    if es != [] {
      DefsAppend([Line(Echo(es[0]))], EchoLines(es[1..]), x);
      EchoDefinesNothing(es[1..], x);
    }
  }

  lemma {:induction false} EvalDefinesNothing(es: seq<ExprId>, x: Name)
    ensures DefsSeq(EvalLines(es), x) == 0
  {
    if es != [] {
      DefsAppend([Line(Evaluate(es[0]))], EvalLines(es[1..]), x);
      EvalDefinesNothing(es[1..], x);
    }
  }
}
