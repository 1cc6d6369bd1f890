/** Running the emitted C does what running the statements does. */
module LoweringProof {
  import opened Basics
  import opened SourceLanguage
  import opened TargetLanguage
  import opened Lowering

  /** How a completion looks in the emitted code at place p: in a helper and outside its own loops it
      is written to the record, elsewhere it is the C statement of the same name. */
  predicate Matches(p: Place, o: Outcome, r: Result, env: Env) {
    && r.st == o.st
    && match o.c
       case Normal => r.c == Falls && r.env == env
       case Break => if Outward(p) then Reports(r, 2) else r.c == Breaks && r.env == env
       case Continue =>
         if Outward(p) then Reports(r, 3)
         else p.labels != [] && r.c == Jumps(p.Innermost()) && r.env == env
       case Return(v) =>
         if p.inHelper then Reports(r, 1) && r.env.ret == v
         else r.c.Returns? && (p.valued ==> r.c.v == v) && r.env == env
       case Throw(x) => r.c == Throws(x) && r.env == env
       case OutOfFuel => r.c == Starves
  }

  predicate Outward(p: Place) { p.inHelper && p.loopDepth == 0 }

  predicate Reports(r: Result, act: nat) { r.c == Returns(Null) && r.env.act == act }

  /** A record as hp_try_run's caller sets it up: nothing reported, nothing saved. */
  predicate Clear(env: Env) { env == Env(0, Null) }

  /** A statement may break out of a loop only where there is one, here or around the helper. */
  predicate Placed(p: Place, inLoop: bool) { p.Ok() && (p.loopDepth > 0 ==> inLoop) && (!p.inHelper ==> (inLoop <==> p.loopDepth > 0)) }

  lemma {:induction false} StmtCorrect(w: World, s: Stmt, p: Place, inLoop: bool, ids: Ids, st: Store, env: Env, ex: Value, fuel: nat)
    requires Placed(p, inLoop) && LoopsOk(s, inLoop)
    requires Faithful(w, s, st, fuel, p.inHelper, p.loopDepth > 0)
    requires Clear(env)
    ensures Matches(p, Exec(w, s, st, fuel), RunSeq(w, LowerStmt(s, p, ids).code, st, env, ex, fuel), env)
    decreases fuel, s, 2
  {
    match s
    case SIf(_, _, _) => IfCorrect(w, s, p, inLoop, ids, st, env, ex, fuel);
    case SWhile(_, _) => LoopStmtCorrect(w, s, p, ids, st, env, ex, fuel);
    case SDo(_, _) => LoopStmtCorrect(w, s, p, ids, st, env, ex, fuel);
    case SForeach(_, _, _) => LoopStmtCorrect(w, s, p, ids, st, env, ex, fuel);
    case SFor(_, _, _, _) => ForStmtCorrect(w, s, p, ids, st, env, ex, fuel);
    case SBlock(_) => BlockCorrect(w, s, p, inLoop, ids, st, env, ex, fuel);
    case STry(_, _, _) => TryCorrect(w, s, p, inLoop, ids, st, env, ex, fuel);
    case SEcho(es) => EchoCorrect(w, es, st, env, ex, fuel);
    case _ => LineCorrect(w, s, p, inLoop, ids, st, env, ex, fuel);
  }

  lemma LineCorrect(w: World, s: Stmt, p: Place, inLoop: bool, ids: Ids, st: Store, env: Env, ex: Value, fuel: nat)
    requires s.SExec? || s.SBreak? || s.SContinue? || s.SReturn? || s.SThrow?
    requires Placed(p, inLoop) && LoopsOk(s, inLoop) && Clear(env)
    ensures Matches(p, Exec(w, s, st, fuel), RunSeq(w, LowerStmt(s, p, ids).code, st, env, ex, fuel), env)
  {
    RunOne(w, LowerStmt(s, p, ids).code[0], st, env, ex, fuel);
  }

  lemma {:induction false} BlockCorrect(w: World, s: Stmt, p: Place, inLoop: bool, ids: Ids, st: Store, env: Env, ex: Value, fuel: nat)
    requires s.SBlock? && Placed(p, inLoop) && LoopsOk(s, inLoop)
    requires Faithful(w, s, st, fuel, p.inHelper, p.loopDepth > 0)
    requires Clear(env)
    ensures Matches(p, Exec(w, s, st, fuel), RunSeq(w, LowerStmt(s, p, ids).code, st, env, ex, fuel), env)
    decreases fuel, s, 1
  {
    SeqCorrect(w, s.body, p, inLoop, ids, st, env, ex, fuel);
    RunOne(w, LowerStmt(s, p, ids).code[0], st, env, ex, fuel);
  }

  lemma {:induction false} IfCorrect(w: World, s: Stmt, p: Place, inLoop: bool, ids: Ids, st: Store, env: Env, ex: Value, fuel: nat)
    requires s.SIf? && Placed(p, inLoop) && LoopsOk(s, inLoop)
    requires Faithful(w, s, st, fuel, p.inHelper, p.loopDepth > 0)
    requires Clear(env)
    ensures Matches(p, Exec(w, s, st, fuel), RunSeq(w, LowerStmt(s, p, ids).code, st, env, ex, fuel), env)
    decreases fuel, s, 1
  {
    RunOne(w, LowerStmt(s, p, ids).code[0], st, env, ex, fuel);
    match w.eval(s.c, st) {
      case Raise(_, _) =>
      case Val(v, st') =>
        if w.truthy(v) {
          SeqCorrect(w, s.thn, p, inLoop, ids, st', env, ex, fuel);
        } else {
          SeqCorrect(w, s.els, p, inLoop, LowerSeq(s.thn, p, ids).ids, st', env, ex, fuel);
        }
    }
  }

  lemma {:induction false} SeqCorrect(w: World, ss: seq<Stmt>, p: Place, inLoop: bool, ids: Ids, st: Store, env: Env, ex: Value, fuel: nat)
    requires Placed(p, inLoop) && LoopsOkSeq(ss, inLoop)
    requires FaithfulSeq(w, ss, st, fuel, p.inHelper, p.loopDepth > 0)
    requires Clear(env)
    ensures Matches(p, ExecSeq(w, ss, st, fuel), RunSeq(w, LowerSeq(ss, p, ids).code, st, env, ex, fuel), env)
    decreases fuel, ss, 0
  {
    if ss != [] {
      var first := LowerStmt(ss[0], p, ids);
      StmtCorrect(w, ss[0], p, inLoop, ids, st, env, ex, fuel);
      var r := Exec(w, ss[0], st, fuel);
      var rest := LowerSeq(ss[1..], p, first.ids);
      RunAppend(w, first.code, rest.code, st, env, ex, fuel);
      if r.c.Normal? {
        SeqCorrect(w, ss[1..], p, inLoop, first.ids, r.st, env, ex, fuel);
      } else if r.c.Continue? && !Outward(p) {
        SeqHasNoLabel(ss[1..], p, first.ids, p.Innermost());
      }
    }
  }

  // ----- Loops -----

  /** A loop body ends in its label, which `continue` jumps to, and the steps of a `for`. */
  function LoopBody(body: seq<Stmt>, step: seq<ExprId>, p: Place, ids: Ids): seq<Code> {
    LowerSeq(body, p.InLoop(ids.labelId), ids.(labelId := ids.labelId + 1)).code + ([Line(Label(ids.labelId))] + EvalLines(step))
  }

  lemma NoSteps(body: seq<Stmt>, p: Place, ids: Ids)
    ensures LoopBody(body, [], p, ids)
         == LowerSeq(body, p.InLoop(ids.labelId), ids.(labelId := ids.labelId + 1)).code + [Line(Label(ids.labelId))]
  {
    assert [Line(Label(ids.labelId))] + EvalLines([]) == [Line(Label(ids.labelId))];
  }

  /** How a loop body that completed as o looks to its loop, label and steps included. */
  predicate BodyEnds(w: World, step: seq<ExprId>, p: Place, o: Outcome, r: Result, env: Env) {
    if Iterates(o.c) then
      var s := ExecExprs(w, step, o.st);
      r.st == s.st && r.env == env && EndsAlike(s.c, r.c)
    else if o.c.Break? then r == Result(Breaks, o.st, env)
    else Matches(p, o, r, env)
  }

  lemma {:induction false} BodyCorrect(w: World, body: seq<Stmt>, step: seq<ExprId>, p: Place, ids: Ids, st: Store, env: Env, ex: Value, fuel: nat)
    requires p.Ok() && LoopsOkSeq(body, true) && FaithfulSeq(w, body, st, fuel, p.inHelper, true) && Clear(env)
    ensures BodyEnds(w, step, p, ExecSeq(w, body, st, fuel), RunSeq(w, LoopBody(body, step, p, ids), st, env, ex, fuel), env)
    decreases fuel, body, 1
  {
    var q := p.InLoop(ids.labelId);
    var b := LowerSeq(body, q, ids.(labelId := ids.labelId + 1));
    SeqCorrect(w, body, q, true, ids.(labelId := ids.labelId + 1), st, env, ex, fuel);
    var tail := [Line(Label(ids.labelId))] + EvalLines(step);
    assert LoopBody(body, step, p, ids) == b.code + tail;
    RunAppend(w, b.code, tail, st, env, ex, fuel);
    BehindBody(w, step, p, ids.labelId, ExecSeq(w, body, st, fuel), RunSeq(w, b.code, st, env, ex, fuel), env, ex, fuel);
  }

  lemma BehindBody(w: World, step: seq<ExprId>, p: Place, lid: nat, o: Outcome, r: Result, env: Env, ex: Value, fuel: nat)
    requires Matches(p.InLoop(lid), o, r, env)
    ensures BodyEnds(w, step, p, o, Resume(w, r, [Line(Label(lid))] + EvalLines(step), ex, fuel), env)
  {
    MatchesInLoop(p, lid, o, r, env);
    if Iterates(o.c) {
      ThroughLabel(w, r, lid, EvalLines(step), ex, fuel);
      EvalCorrect(w, step, r.st, env, ex, fuel);
    }
  }

  /** What an outcome inside a loop looks like to the loop. */
  lemma MatchesInLoop(p: Place, lid: nat, o: Outcome, r: Result, env: Env)
    requires Matches(p.InLoop(lid), o, r, env)
    ensures if Iterates(o.c) then (r.c.Falls? || r.c == Jumps(lid)) && r.st == o.st && r.env == env
            else !r.c.Falls? && !r.c.Jumps? && if o.c.Break? then r == Result(Breaks, o.st, env) else Matches(p, o, r, env)
  {
  }

  lemma ThroughLabel(w: World, r: Result, lid: nat, after: seq<Code>, ex: Value, fuel: nat)
    requires r.c.Falls? || r.c == Jumps(lid)
    ensures Resume(w, r, [Line(Label(lid))] + after, ex, fuel) == RunSeq(w, after, r.st, r.env, ex, fuel)
  {
    RunFirst(w, Line(Label(lid)), after, r.st, r.env, ex, fuel);
    assert ([Line(Label(lid))] + after)[1..] == after;
  }

  lemma {:induction false} ForCorrect(w: World, cond: Option<ExprId>, step: seq<ExprId>, body: seq<Stmt>, p: Place, ids: Ids, st: Store, env: Env, ex: Value, fuel: nat)
    requires p.Ok() && LoopsOkSeq(body, true) && FaithfulFor(w, cond, step, body, st, fuel, p.inHelper) && Clear(env)
    ensures Matches(p, ExecFor(w, cond, step, body, st, fuel), RunFor(w, cond, LoopBody(body, step, p, ids), st, env, ex, fuel), env)
    decreases fuel, body, 2
  {
    if fuel > 0 && Test(w, cond, st).Val? {
      var st' := Test(w, cond, st).st;
      if w.truthy(Test(w, cond, st).v) || cond.None? {
        BodyCorrect(w, body, step, p, ids, st', env, ex, fuel);
        var o := ExecSeq(w, body, st', fuel);
        var s := ExecExprs(w, step, o.st);
        var r := RunSeq(w, LoopBody(body, step, p, ids), st', env, ex, fuel);
        ExprsComplete(w, step, o.st);
        RunForRound(w, cond, LoopBody(body, step, p, ids), st, env, ex, fuel);
        if Iterates(o.c) && s.c.Normal? {
          ForCorrect(w, cond, step, body, p, ids, s.st, env, ex, fuel - 1);
        } else if Iterates(o.c) {
          assert ExecFor(w, cond, step, body, st, fuel) == s && r.c == Throws(s.c.ex);
        } else {
          assert ExecFor(w, cond, step, body, st, fuel) == if o.c.Break? then Outcome(Normal, o.st) else o;
        }
      }
    }
  }

  /** One round of the emitted loop. */
  lemma RunForRound(w: World, cond: Option<ExprId>, body: seq<Code>, st: Store, env: Env, ex: Value, fuel: nat)
    requires fuel > 0 && Test(w, cond, st).Val? && (w.truthy(Test(w, cond, st).v) || cond.None?)
    ensures var r := RunSeq(w, body, Test(w, cond, st).st, env, ex, fuel);
            RunFor(w, cond, body, st, env, ex, fuel)
              == if r.c.Breaks? then Result(Falls, r.st, r.env)
                 else if r.c.Falls? || r.c.Continues? then RunFor(w, cond, body, r.st, r.env, ex, fuel - 1)
                 else r
  {
  }

  lemma {:induction false} LoopStmtCorrect(w: World, s: Stmt, p: Place, ids: Ids, st: Store, env: Env, ex: Value, fuel: nat)
    requires (s.SWhile? || s.SDo? || s.SForeach?) && p.Ok() && LoopsOk(s, true)
    requires Faithful(w, s, st, fuel, p.inHelper, p.loopDepth > 0) && Clear(env)
    ensures Matches(p, Exec(w, s, st, fuel), RunSeq(w, LowerStmt(s, p, ids).code, st, env, ex, fuel), env)
    decreases fuel, s, 1
  {
    NoSteps(s.body, p, ids);
    RunOne(w, LowerStmt(s, p, ids).code[0], st, env, ex, fuel);
    match s
    case SWhile(c, body) => ForCorrect(w, Some(c), [], body, p, ids, st, env, ex, fuel);
    case SDo(body, c) => DoCorrect(w, body, c, p, ids, st, env, ex, fuel);
    case SForeach(e, v, body) =>
      match w.iter(e, st)
      case IterRaise(_, _) =>
      case Started(at, st') => EachCorrect(w, at, v, body, p, ids, st', env, ex, fuel);
  }

  lemma {:induction false} ForStmtCorrect(w: World, s: Stmt, p: Place, ids: Ids, st: Store, env: Env, ex: Value, fuel: nat)
    requires s.SFor? && p.Ok() && LoopsOk(s, true) && Faithful(w, s, st, fuel, p.inHelper, p.loopDepth > 0) && Clear(env)
    ensures Matches(p, Exec(w, s, st, fuel), RunSeq(w, LowerStmt(s, p, ids).code, st, env, ex, fuel), env)
    decreases fuel, s, 1
  {
    EvalCorrect(w, s.init, st, env, ex, fuel);
    var loop := For(s.cond, LoopBody(s.body, s.step, p, ids));
    RunAppend(w, EvalLines(s.init), [loop], st, env, ex, fuel);
    RunOne(w, Block(EvalLines(s.init) + [loop]), st, env, ex, fuel);
    var r := ExecExprs(w, s.init, st);
    if r.c.Normal? {
      ForCorrect(w, s.cond, s.step, s.body, p, ids, r.st, env, ex, fuel);
      RunOne(w, loop, r.st, env, ex, fuel);
    }
  }

  lemma {:induction false} DoCorrect(w: World, body: seq<Stmt>, c: ExprId, p: Place, ids: Ids, st: Store, env: Env, ex: Value, fuel: nat)
    requires p.Ok() && LoopsOkSeq(body, true) && FaithfulDo(w, body, c, st, fuel, p.inHelper) && Clear(env)
    ensures Matches(p, ExecDo(w, body, c, st, fuel), RunDo(w, LoopBody(body, [], p, ids), c, st, env, ex, fuel), env)
    decreases fuel, body, 2
  {
    if fuel > 0 {
      BodyCorrect(w, body, [], p, ids, st, env, ex, fuel);
      var o := ExecSeq(w, body, st, fuel);
      if Iterates(o.c) {
        assert RunSeq(w, LoopBody(body, [], p, ids), st, env, ex, fuel) == Result(Falls, o.st, env);
        match w.eval(c, o.st) {
          case Raise(_, _) =>
          case Val(v, st') => if w.truthy(v) { DoCorrect(w, body, c, p, ids, st', env, ex, fuel - 1); }
        }
      }
    }
  }

  lemma {:induction false} EachCorrect(w: World, at: Cursor, v: LoopVars, body: seq<Stmt>, p: Place, ids: Ids, st: Store, env: Env, ex: Value, fuel: nat)
    requires p.Ok() && LoopsOkSeq(body, true) && FaithfulEach(w, at, v, body, st, fuel, p.inHelper) && Clear(env)
    ensures Matches(p, ExecEach(w, at, v, body, st, fuel), RunEach(w, at, v, LoopBody(body, [], p, ids), st, env, ex, fuel), env)
    decreases fuel, body, 2
  {
    if fuel > 0 && w.item(at, st).Some? {
      var x := w.item(at, st).value;
      BodyCorrect(w, body, [], p, ids, BindItem(v, x, st), env, ex, fuel);
      var o := ExecSeq(w, body, BindItem(v, x, st), fuel);
      if Iterates(o.c) { EachCorrect(w, x.next, v, body, p, ids, o.st, env, ex, fuel - 1); }
    }
  }

  // ----- Try statements -----

  /** What hp_try_run leaves behind for a protected part that completed as o. */
  predicate Reported(o: Outcome, r: Result) {
    && r.st == o.st
    && match o.c
       case OutOfFuel => r.c.Starves?
       case Throw(x) => !r.c.Starves? && HelperValue(r.c) == x && Clear(r.env)
       case Normal => !r.c.Starves? && HelperValue(r.c) == Null && Clear(r.env)
       case Break => Reports(r, 2)
       case Continue => Reports(r, 3)
       case Return(v) => Reports(r, 1) && r.env.ret == v
  }

  lemma {:induction false} HelperCorrect(w: World, ss: seq<Stmt>, p: Place, inLoop: bool, ids: Ids, st: Store, ex: Value, fuel: nat)
    requires LoopsOkSeq(ss, inLoop) && FaithfulSeq(w, ss, st, fuel, true, false)
    ensures var o := ExecSeq(w, ss, st, fuel);
            var r := RunSeq(w, LowerSeq(ss, p.InTry(), ids).code + [Line(ReturnNull)], st, Env(0, Null), ex, fuel);
            Reported(o, r) && (o.c.Throw? <==> r.c.Throws?)
    decreases fuel, ss, 1
  {
    SeqCorrect(w, ss, p.InTry(), inLoop, ids, st, Env(0, Null), ex, fuel);
    RunAppend(w, LowerSeq(ss, p.InTry(), ids).code, [Line(ReturnNull)], st, Env(0, Null), ex, fuel);
    RunOne(w, Line(ReturnNull), ExecSeq(w, ss, st, fuel).st, Env(0, Null), ex, fuel);
  }

  /** The catch helper runs the clauses as they are emitted; without any it hands the exception back. */
  lemma {:induction false} HandlerRunsAll(w: World, clauses: seq<Clause>, p: Place, inLoop: bool, ids: Ids, x: Value, st: Store, fuel: nat)
    requires LoopsOkClauses(clauses, inLoop) && FaithfulAll(w, clauses, x, st, fuel)
    ensures Reported(ExecHandler(w, clauses, x, st, fuel),
                     RunSeq(w, HandlerCode(clauses, LowerClauses(clauses, p.InTry(), ids).code), st, Env(0, Null), x, fuel))
    decreases fuel, clauses, 1
  {
    var code := LowerClauses(clauses, p.InTry(), ids).code;
    if clauses == [] {
      assert HandlerCode(clauses, code) == [Line(ReturnEx)] + [Line(ReturnNull)];
      RunFirst(w, Line(ReturnEx), [Line(ReturnNull)], st, Env(0, Null), x, fuel);
    } else {
      assert HandlerCode(clauses, code) == code + [Line(ReturnNull)];
      ClausesRunAll(w, clauses, p, inLoop, ids, x, st, fuel);
    }
  }

  lemma {:induction false} ClausesRunAll(w: World, clauses: seq<Clause>, p: Place, inLoop: bool, ids: Ids, x: Value, st: Store, fuel: nat)
    requires LoopsOkClauses(clauses, inLoop) && FaithfulAll(w, clauses, x, st, fuel)
    ensures Reported(ExecAll(w, clauses, x, st, fuel),
                     RunSeq(w, LowerClauses(clauses, p.InTry(), ids).code + [Line(ReturnNull)], st, Env(0, Null), x, fuel))
    decreases fuel, clauses, 0
  {
    var code := LowerClauses(clauses, p.InTry(), ids).code + [Line(ReturnNull)];
    if clauses == [] {
      assert code == [Line(ReturnNull)];
      RunOne(w, Line(ReturnNull), st, Env(0, Null), x, fuel);
    } else {
      var cl := clauses[0];
      var first := LowerSeq(cl.body, p.InTry(), ids);
      var after := LowerClauses(clauses[1..], p.InTry(), first.ids).code + [Line(ReturnNull)];
      var o := ExecSeq(w, cl.body, Bind(w, cl, x, st), fuel);
      assert code == [Line(BindEx(cl.ty, cl.v))] + (first.code + after);
      ClauseRuns(w, cl, after, p, inLoop, ids, x, st, fuel);
      if o.c.Normal? { ClausesRunAll(w, clauses[1..], p, inLoop, first.ids, x, o.st, fuel); }
    }
  }

  /** One clause: unless its body completes normally what follows it does not run. */
  lemma {:induction false} ClauseRuns(w: World, cl: Clause, after: seq<Code>, p: Place, inLoop: bool, ids: Ids, x: Value, st: Store, fuel: nat)
    requires LoopsOkSeq(cl.body, inLoop) && FaithfulSeq(w, cl.body, Bind(w, cl, x, st), fuel, true, false)
    ensures var o := ExecSeq(w, cl.body, Bind(w, cl, x, st), fuel);
            var r := RunSeq(w, [Line(BindEx(cl.ty, cl.v))] + (LowerSeq(cl.body, p.InTry(), ids).code + after), st, Env(0, Null), x, fuel);
            if o.c.Normal? then r == RunSeq(w, after, o.st, Env(0, Null), x, fuel) else Reported(o, r)
    decreases fuel, cl, 0
  {
    var code := LowerSeq(cl.body, p.InTry(), ids).code;
    var bound := Bind(w, cl, x, st);
    RunFirst(w, Line(BindEx(cl.ty, cl.v)), code + after, st, Env(0, Null), x, fuel);
    SeqCorrect(w, cl.body, p.InTry(), inLoop, ids, bound, Env(0, Null), x, fuel);
    RunAppend(w, code, after, bound, Env(0, Null), x, fuel);
    BehindHelper(w, p, ExecSeq(w, cl.body, bound, fuel), RunSeq(w, code, bound, Env(0, Null), x, fuel), after, x, fuel);
  }

  lemma BehindHelper(w: World, p: Place, o: Outcome, r: Result, after: seq<Code>, x: Value, fuel: nat)
    requires Matches(p.InTry(), o, r, Env(0, Null))
    ensures var r' := Resume(w, r, after, x, fuel);
            if o.c.Normal? then r' == RunSeq(w, after, o.st, Env(0, Null), x, fuel) else Reported(o, r')
  {
  }

  /** hp_try_run reports a thrown null as a normal end. */
  function Swallowed(o: Outcome): Outcome { if o.c == Throw(Null) then Outcome(Normal, o.st) else o }

  lemma ReportedAlike(o: Outcome, o': Outcome, r: Result)
    requires Reported(o, r)
    ensures Reported(o', r) <==> Swallowed(o) == Swallowed(o')
  {
  }

  /** The catch helper does what try/catch means exactly when running all clauses comes to the same. */
  lemma HandlerCorrectIff(w: World, clauses: seq<Clause>, p: Place, inLoop: bool, ids: Ids, x: Value, st: Store, fuel: nat)
    requires LoopsOkClauses(clauses, inLoop) && FaithfulAll(w, clauses, x, st, fuel)
    ensures Reported(ExecClauses(w, clauses, x, st, fuel),
                     RunSeq(w, HandlerCode(clauses, LowerClauses(clauses, p.InTry(), ids).code), st, Env(0, Null), x, fuel))
            <==> Swallowed(ExecClauses(w, clauses, x, st, fuel)) == Swallowed(ExecHandler(w, clauses, x, st, fuel))
  {
    HandlerRunsAll(w, clauses, p, inLoop, ids, x, st, fuel);
    ReportedAlike(ExecHandler(w, clauses, x, st, fuel), ExecClauses(w, clauses, x, st, fuel),
                  RunSeq(w, HandlerCode(clauses, LowerClauses(clauses, p.InTry(), ids).code), st, Env(0, Null), x, fuel));
  }

  /** A first clause that catches decides alone if it is the only one or does not end normally. */
  lemma FirstClauseDecides(w: World, clauses: seq<Clause>, x: Value, st: Store, fuel: nat)
    requires FirstClauseCatches(w, clauses, x, st, fuel)
    ensures ExecClauses(w, clauses, x, st, fuel) == ExecHandler(w, clauses, x, st, fuel)
  {
    if clauses != [] {
      var r := ExecSeq(w, clauses[0].body, Bind(w, clauses[0], x, st), fuel);
      if |clauses| == 1 { assert ExecAll(w, clauses[1..], x, r.st, fuel) == Outcome(Normal, r.st); }
    }
  }

  lemma HandlerCorrect(w: World, clauses: seq<Clause>, p: Place, inLoop: bool, ids: Ids, x: Value, st: Store, fuel: nat)
    requires LoopsOkClauses(clauses, inLoop) && FirstClauseCatches(w, clauses, x, st, fuel)
    requires clauses != [] ==> FaithfulSeq(w, clauses[0].body, Bind(w, clauses[0], x, st), fuel, true, false)
    ensures Reported(ExecClauses(w, clauses, x, st, fuel),
                     RunSeq(w, HandlerCode(clauses, LowerClauses(clauses, p.InTry(), ids).code), st, Env(0, Null), x, fuel))
  {
    if |clauses| == 1 { assert clauses[1..] == []; }
    HandlerRunsAll(w, clauses, p, inLoop, ids, x, st, fuel);
    FirstClauseDecides(w, clauses, x, st, fuel);
  }

  /** What goes wrong otherwise. An exception that no clause catches is swallowed unless the clauses
      throw it again from an unchanged store; behind a clause that catches and ends normally the
      clauses after it must leave everything as it is. */
  lemma {:induction false} ClausesAgreeIff(w: World, clauses: seq<Clause>, x: Value, st: Store, fuel: nat)
    requires clauses != []
    ensures (forall k :: 0 <= k < |clauses| ==> !Catches(w, clauses[k], x)) ==>
              (ExecClauses(w, clauses, x, st, fuel) == ExecHandler(w, clauses, x, st, fuel)
               <==> ExecAll(w, clauses, x, st, fuel) == Outcome(Throw(x), st))
    ensures Catches(w, clauses[0], x) ==>
              var r := ExecSeq(w, clauses[0].body, Bind(w, clauses[0], x, st), fuel);
              (ExecClauses(w, clauses, x, st, fuel) == ExecHandler(w, clauses, x, st, fuel)
               <==> (r.c.Normal? ==> ExecAll(w, clauses[1..], x, r.st, fuel) == r))
  {
    if forall k :: 0 <= k < |clauses| ==> !Catches(w, clauses[k], x) { NoClauseCatches(w, clauses, x, st, fuel); }
  }

  lemma {:induction false} AllAppend(w: World, a: seq<Clause>, b: seq<Clause>, x: Value, st: Store, fuel: nat)
    ensures var r := ExecAll(w, a, x, st, fuel);
            ExecAll(w, a + b, x, st, fuel) == if r.c.Normal? then ExecAll(w, b, x, r.st, fuel) else r
    decreases |a|
  {
    if a == [] {
      assert a + b == b;
    } else {
      assert (a + b)[1..] == a[1..] + b;
      AllAppend(w, a[1..], b, x, ExecSeq(w, a[0].body, Bind(w, a[0], x, st), fuel).st, fuel);
    }
  }

  lemma {:induction false} ClauseIsChosen(w: World, clauses: seq<Clause>, k: nat, x: Value, st: Store, fuel: nat)
    requires k < |clauses| && Catches(w, clauses[k], x) && forall j :: 0 <= j < k ==> !Catches(w, clauses[j], x)
    ensures ExecClauses(w, clauses, x, st, fuel) == ExecSeq(w, clauses[k].body, Bind(w, clauses[k], x, st), fuel)
    decreases k
  {
    if k > 0 { ClauseIsChosen(w, clauses[1..], k - 1, x, st, fuel); }
  }

  /** The first clause that catches is number k. The clauses in front of it run as well: where they end
      normally and leave what clause k starts from, only the clauses behind it can still do harm; where one
      of them ends otherwise, that is how the handler ends. */
  lemma LaterClauseAgreesIff(w: World, clauses: seq<Clause>, k: nat, x: Value, st: Store, fuel: nat)
    requires k < |clauses| && Catches(w, clauses[k], x) && forall j :: 0 <= j < k ==> !Catches(w, clauses[j], x)
    ensures var cl, front := clauses[k], ExecAll(w, clauses[..k], x, st, fuel);
            var meant := ExecSeq(w, cl.body, Bind(w, cl, x, st), fuel);
            var agree := ExecClauses(w, clauses, x, st, fuel) == ExecHandler(w, clauses, x, st, fuel);
            && (agree <==> meant == if front.c.Normal? then ExecAll(w, clauses[k..], x, front.st, fuel) else front)
            && (front.c.Normal? && Bind(w, cl, x, front.st) == Bind(w, cl, x, st) ==>
                  (agree <==> (meant.c.Normal? ==> ExecAll(w, clauses[k + 1..], x, meant.st, fuel) == meant)))
  {
    ClauseIsChosen(w, clauses, k, x, st, fuel);
    assert clauses == clauses[..k] + clauses[k..];
    AllAppend(w, clauses[..k], clauses[k..], x, st, fuel);
    assert clauses[k..][1..] == clauses[k + 1..];
  }

  lemma {:induction false} NoClauseCatches(w: World, clauses: seq<Clause>, x: Value, st: Store, fuel: nat)
    requires forall k :: 0 <= k < |clauses| ==> !Catches(w, clauses[k], x)
    ensures ExecClauses(w, clauses, x, st, fuel) == Outcome(Throw(x), st)
    decreases |clauses|
  {
    if clauses != [] { NoClauseCatches(w, clauses[1..], x, st, fuel); }
  }

  lemma {:induction false} ProtectedCorrect(w: World, s: Stmt, t: Code, p: Place, inLoop: bool, ids: Ids, st: Store, fuel: nat)
    requires s.STry? && LoopsOk(s, inLoop) && PartsFaithful(w, s, st, fuel, p.inHelper, p.loopDepth > 0)
    requires t == LowerStmt(s, p, ids).code[0]
    ensures Reported(ProtectedAsEmitted(w, s, st, fuel), HpTryRun(w, t, st, fuel))
    decreases fuel, s, 0, 0
  {
    var b := LowerSeq(s.body, p.InTry(), ids.(tryId := ids.tryId + 1));
    HelperCorrect(w, s.body, p, inLoop, ids.(tryId := ids.tryId + 1), st, Null, fuel);
    var o := ExecSeq(w, s.body, st, fuel);
    if o.c.Throw? {
      HandlerRunsAll(w, s.clauses, p, inLoop, b.ids, o.c.ex, o.st, fuel);
    }
  }

  lemma {:induction false} TryCorrect(w: World, s: Stmt, p: Place, inLoop: bool, ids: Ids, st: Store, env: Env, ex: Value, fuel: nat)
    requires s.STry? && Placed(p, inLoop) && LoopsOk(s, inLoop)
    requires Faithful(w, s, st, fuel, p.inHelper, p.loopDepth > 0)
    requires Clear(env)
    ensures Matches(p, Exec(w, s, st, fuel), RunSeq(w, LowerStmt(s, p, ids).code, st, env, ex, fuel), env)
    decreases fuel, s, 1
  {
    TryRunsAsEmitted(w, s, p, inLoop, ids, st, env, ex, fuel);
  }

  /** Any try statement with parts that are compiled correctly, whatever its clauses: the code runs the
      body, on a throw every clause in turn, then `finally`, and delivers what is pending. */
  lemma {:induction false} TryRunsAsEmitted(w: World, s: Stmt, p: Place, inLoop: bool, ids: Ids, st: Store, env: Env, ex: Value, fuel: nat)
    requires s.STry? && Placed(p, inLoop) && LoopsOk(s, inLoop) && Clear(env)
    requires PartsFaithful(w, s, st, fuel, p.inHelper, p.loopDepth > 0)
    requires var handled := ProtectedAsEmitted(w, s, st, fuel);
             !handled.c.OutOfFuel? ==>
               Delivers(handled.c, ExecSeq(w, s.fin, handled.st, fuel).c, p.inHelper, p.loopDepth > 0)
    ensures Matches(p, TryAsEmitted(w, s, st, fuel), RunSeq(w, LowerStmt(s, p, ids).code, st, env, ex, fuel), env)
    decreases fuel, s, 0, 1
  {
    var t := LowerStmt(s, p, ids).code[0];
    var h := LowerHelpers(s, p, ids.(tryId := ids.tryId + 1));
    ProtectedCorrect(w, s, t, p, inLoop, ids, st, fuel);
    RunOne(w, t, st, env, ex, fuel);
    var handled := ProtectedAsEmitted(w, s, st, fuel);
    if !handled.c.OutOfFuel? {
      SeqCorrect(w, s.fin, p, inLoop, h.ids, handled.st, env, ex, fuel);
      var last := ExecSeq(w, s.fin, handled.st, fuel);
      if last.c.Normal? {
        if !inLoop { ProtectedKeepsBreaks(w, s, st, fuel); }
        DispatchCorrect(p, handled, HpTryRun(w, t, st, fuel), last.st, env);
      }
    }
  }

  predicate Alike(p: Place, o: Outcome, o': Outcome) {
    o == o' || (o.c.Return? && o'.c.Return? && o.st == o'.st && !p.valued && !p.inHelper)
  }

  /** A try statement that can deliver what is pending is compiled correctly if and only if running
      every clause in turn ends like running the first one that catches. */
  lemma TryCorrectIffClausesAgree(w: World, s: Stmt, p: Place, inLoop: bool, ids: Ids, st: Store, env: Env, ex: Value, fuel: nat)
    requires s.STry? && Placed(p, inLoop) && LoopsOk(s, inLoop) && Clear(env)
    requires PartsFaithful(w, s, st, fuel, p.inHelper, p.loopDepth > 0)
    requires var handled := ProtectedAsEmitted(w, s, st, fuel);
             !handled.c.OutOfFuel? ==>
               Delivers(handled.c, ExecSeq(w, s.fin, handled.st, fuel).c, p.inHelper, p.loopDepth > 0)
    ensures Matches(p, Exec(w, s, st, fuel), RunSeq(w, LowerStmt(s, p, ids).code, st, env, ex, fuel), env)
            <==> Alike(p, Exec(w, s, st, fuel), TryAsEmitted(w, s, st, fuel))
  {
    TryRunsAsEmitted(w, s, p, inLoop, ids, st, env, ex, fuel);
  }

  lemma DispatchCorrect(p: Place, handled: Outcome, r: Result, st: Store, env: Env)
    requires p.Ok() && Reported(handled, r) && !handled.c.OutOfFuel? && handled.c != Throw(Null)
    requires LeavesLoop(handled.c) ==> (p.loopDepth > 0) != p.inHelper
    ensures Matches(p, Pending(handled.c, st), RunDispatch(Dispatches(p), HelperValue(r.c), r.env, st, env), env)
  {
    var ds := Dispatches(p);
    var e, v := r.env, HelperValue(r.c);
    var d2 := RunDispatch(ds[1..], v, e, st, env);
    assert RunDispatch(ds, v, e, st, env) == if v != Null then Throwing(v, st, env) else d2;
    if p.inHelper {
      assert ds[1..][0] == Forward && ds[1..][1..] == [];
      assert d2 == if e.act != 0 then Result(Returns(Null), st, Env(e.act, e.ret)) else RunDispatch(ds[1..][1..], v, e, st, env);
    } else {
      assert ds[1..][0] == OnReturn(p.valued);
      var third := ds[1..][1..];
      var d3 := RunDispatch(third, v, e, st, env);
      assert d2 == if e.act == 1 then Result(Returns(if p.valued then e.ret else Null), st, env) else d3;
      if p.loopDepth == 0 {
        assert third == [];
      } else {
        assert third[0] == OnBreak && third[1..] == [OnContinueGoto(p.Innermost())];
        var goto := Result(Jumps(p.Innermost()), st, env);
        assert RunDispatch(third[1..], v, e, st, env) == if e.act == 3 then goto else RunDispatch([], v, e, st, env);
        assert d3 == if e.act == 2 then Result(Breaks, st, env) else RunDispatch(third[1..], v, e, st, env);
      }
    }
  }

  lemma ProtectedKeepsBreaks(w: World, s: Stmt, st: Store, fuel: nat)
    requires s.STry? && LoopsOk(s, false)
    ensures !LeavesLoop(ProtectedAsEmitted(w, s, st, fuel).c)
  {
    var o := ExecSeq(w, s.body, st, fuel);
    NoStrayBreakSeq(w, s.body, st, fuel);
    if o.c.Throw? { AllKeepBreaks(w, s.clauses, o.c.ex, o.st, fuel); }
  }

  lemma {:induction false} AllKeepBreaks(w: World, clauses: seq<Clause>, x: Value, st: Store, fuel: nat)
    requires LoopsOkClauses(clauses, false)
    ensures !LeavesLoop(ExecAll(w, clauses, x, st, fuel).c)
    decreases |clauses|
  {
    if clauses != [] {
      var bound := Bind(w, clauses[0], x, st);
      NoStrayBreakSeq(w, clauses[0].body, bound, fuel);
      AllKeepBreaks(w, clauses[1..], x, ExecSeq(w, clauses[0].body, bound, fuel).st, fuel);
    }
  }

  // ----- Labels stand inside loop bodies only -----

  lemma {:induction false} StmtHasNoLabel(s: Stmt, p: Place, ids: Ids, n: nat)
    ensures Find(LowerStmt(s, p, ids).code, n) == |LowerStmt(s, p, ids).code|
  {
    match s
    case SEcho(es) => EchoHasNoLabel(es, n);
    case _ =>
  }

  lemma {:induction false} EchoHasNoLabel(es: seq<ExprId>, n: nat)
    ensures Find(EchoLines(es), n) == |EchoLines(es)|
  {
    if es != [] { EchoHasNoLabel(es[1..], n); }
  }

  lemma {:induction false} SeqHasNoLabel(ss: seq<Stmt>, p: Place, ids: Ids, n: nat)
    ensures Find(LowerSeq(ss, p, ids).code, n) == |LowerSeq(ss, p, ids).code|
    decreases |ss|
  {
    if ss != [] {
      var first := LowerStmt(ss[0], p, ids);
      StmtHasNoLabel(ss[0], p, ids, n);
      SeqHasNoLabel(ss[1..], p, first.ids, n);
      FindAppend(first.code, LowerSeq(ss[1..], p, first.ids).code, n);
    }
  }

  /** Straight-line code either falls through or throws. */
  predicate EndsAlike(c: Completion, e: Exit) {
    if c.Throw? then e == Throws(c.ex) else c.Normal? && e.Falls?
  }

  lemma {:induction false} EvalCorrect(w: World, es: seq<ExprId>, st: Store, env: Env, ex: Value, fuel: nat)
    ensures var o := ExecExprs(w, es, st); var r := RunSeq(w, EvalLines(es), st, env, ex, fuel);
            r.st == o.st && r.env == env && EndsAlike(o.c, r.c)
  {
    if es != [] {
      RunFirst(w, Line(Evaluate(es[0])), EvalLines(es[1..]), st, env, ex, fuel);
      match w.eval(es[0], st) {
        case Raise(_, _) =>
        case Val(_, st') => EvalCorrect(w, es[1..], st', env, ex, fuel);
      }
    }
  }

  lemma {:induction false} EchoCorrect(w: World, es: seq<ExprId>, st: Store, env: Env, ex: Value, fuel: nat)
    ensures var o := ExecEcho(w, es, st); var r := RunSeq(w, EchoLines(es), st, env, ex, fuel);
            r.st == o.st && r.env == env && EndsAlike(o.c, r.c)
  {
    if es != [] {
      RunFirst(w, Line(Echo(es[0])), EchoLines(es[1..]), st, env, ex, fuel);
      match w.eval(es[0], st) {
        case Raise(_, _) =>
        case Val(v, st') => EchoCorrect(w, es[1..], st'.(out := st'.out + [v]), env, ex, fuel);
      }
    }
  }

  // ----- Main results -----

  /** A function body, for every choice of expressions, every store and every number of loop
      iterations: the emitted C ends the way the body ends, with the same store and output. */
  lemma FunctionCorrect(w: World, body: seq<Stmt>, valued: bool, ids: Ids, st: Store, fuel: nat)
    requires LoopsOkSeq(body, false) && FaithfulSeq(w, body, st, fuel, false, false)
    ensures var o := ExecSeq(w, body, st, fuel);
            var r := RunSeq(w, LowerSeq(body, Place(false, 0, [], valued), ids).code, st, Env(0, Null), Null, fuel);
            && r.st == o.st
            && (o.c.Normal? <==> r.c.Falls?)
            && (o.c.OutOfFuel? <==> r.c.Starves?)
            && (o.c.Return? <==> r.c.Returns?) && (o.c.Return? && valued ==> r.c.v == o.c.v)
            && (o.c.Throw? <==> r.c.Throws?) && (o.c.Throw? ==> r.c.ex == o.c.ex)
  {
    SeqCorrect(w, body, Place(false, 0, [], valued), false, ids, st, Env(0, Null), Null, fuel);
    NoStrayBreakSeq(w, body, st, fuel);
  }

  /** The test for pending completions is exact: a try statement whose parts are faithful is
      compiled correctly if and only if what is pending after `finally` can be delivered. */
  lemma {:induction false} TryCorrectIffDelivers(w: World, s: Stmt, p: Place, inLoop: bool, ids: Ids, st: Store, env: Env, ex: Value, fuel: nat)
    requires s.STry? && Placed(p, inLoop) && LoopsOk(s, inLoop) && Clear(env)
    requires PartsFaithful(w, s, st, fuel, p.inHelper, p.loopDepth > 0) && !ExecProtected(w, s, st, fuel).c.OutOfFuel?
    requires ExecProtected(w, s, st, fuel) == ProtectedAsEmitted(w, s, st, fuel)
    ensures var handled := ExecProtected(w, s, st, fuel);
            Matches(p, Exec(w, s, st, fuel), RunSeq(w, LowerStmt(s, p, ids).code, st, env, ex, fuel), env)
            <==> Delivers(handled.c, ExecSeq(w, s.fin, handled.st, fuel).c, p.inHelper, p.loopDepth > 0)
  {
    var handled := ExecProtected(w, s, st, fuel);
    var last := ExecSeq(w, s.fin, handled.st, fuel);
    if Delivers(handled.c, last.c, p.inHelper, p.loopDepth > 0) {
      TryCorrect(w, s, p, inLoop, ids, st, env, ex, fuel);
    } else {
      NotDelivered(w, s, p, inLoop, ids, st, env, ex, fuel);
    }
  }

  lemma {:induction false} NotDelivered(w: World, s: Stmt, p: Place, inLoop: bool, ids: Ids, st: Store, env: Env, ex: Value, fuel: nat)
    requires s.STry? && Placed(p, inLoop) && LoopsOk(s, inLoop) && Clear(env)
    requires PartsFaithful(w, s, st, fuel, p.inHelper, p.loopDepth > 0)
    requires var handled := ProtectedAsEmitted(w, s, st, fuel);
             && !handled.c.OutOfFuel? && ExecSeq(w, s.fin, handled.st, fuel).c.Normal?
             && !Delivers(handled.c, Normal, p.inHelper, p.loopDepth > 0)
    ensures !Matches(p, TryAsEmitted(w, s, st, fuel), RunSeq(w, LowerStmt(s, p, ids).code, st, env, ex, fuel), env)
  {
    var t := LowerStmt(s, p, ids).code[0];
    var h := LowerHelpers(s, p, ids.(tryId := ids.tryId + 1));
    var handled := ProtectedAsEmitted(w, s, st, fuel);
    ProtectedCorrect(w, s, t, p, inLoop, ids, st, fuel);
    RunOne(w, t, st, env, ex, fuel);
    SeqCorrect(w, s.fin, p, inLoop, h.ids, handled.st, env, ex, fuel);
    UndeliveredIsLost(p, handled, HpTryRun(w, t, st, fuel), ExecSeq(w, s.fin, handled.st, fuel).st, env);
  }

  lemma UndeliveredIsLost(p: Place, handled: Outcome, r: Result, st: Store, env: Env)
    requires Reported(handled, r) && !Delivers(handled.c, Normal, p.inHelper, p.loopDepth > 0)
    ensures !Matches(p, Pending(handled.c, st), RunDispatch(Dispatches(p), HelperValue(r.c), r.env, st, env), env)
  {
    var ds := Dispatches(p);
    var e, v := r.env, HelperValue(r.c);
    var d2 := RunDispatch(ds[1..], v, e, st, env);
    assert v == Null && RunDispatch(ds, v, e, st, env) == d2;
    if handled.c == Throw(Null) {
      var d3 := RunDispatch(ds[1..][1..], v, e, st, env);
      assert d2 == d3 == Result(Falls, st, env) by {
        if !p.inHelper && p.loopDepth > 0 {
          assert RunDispatch(ds[1..][1..][1..], v, e, st, env) == RunDispatch(ds[1..][1..][1..][1..], v, e, st, env);
        }
      }
    } else {
      assert ds[1..] == [Forward];
    }
  }
}
