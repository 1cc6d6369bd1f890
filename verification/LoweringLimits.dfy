/** Which programs run faithfully whatever happens at run time, and four programs that do not. */
module LoweringLimits {
  import opened Basics
  import opened SourceLanguage
  import opened TargetLanguage
  import opened Lowering
  import opened LoweringProof

  // ----- A check on the program text -----

  /** No null is ever thrown, by an expression or by a `throw`. */
  ghost predicate NeverThrowsNull(w: World) {
    && (forall e, st :: w.eval(e, st).Raise? ==> w.eval(e, st).ex != Null)
    && (forall e, st :: w.iter(e, st).IterRaise? ==> w.iter(e, st).ex != Null)
  }

  ghost predicate ThrowsSomething(w: World, e: ExprId) {
    forall st :: w.eval(e, st).Val? ==> w.eval(e, st).v != Null
  }

  /** At most one clause a try, catching everything; no `break` or `continue` out of a try that
      stands in a loop of a try helper; no `throw` of null. */
  ghost predicate Plain(w: World, s: Stmt, inHelper: bool, inLoop: bool)
    decreases s, 0
  {
    match s
    case SIf(_, thn, els) => PlainSeq(w, thn, inHelper, inLoop) && PlainSeq(w, els, inHelper, inLoop)
    case SWhile(_, body) => PlainSeq(w, body, inHelper, true)
    case SDo(body, _) => PlainSeq(w, body, inHelper, true)
    case SFor(_, _, _, body) => PlainSeq(w, body, inHelper, true)
    case SForeach(_, _, body) => PlainSeq(w, body, inHelper, true)
    case SBlock(body) => PlainSeq(w, body, inHelper, inLoop)
    case SThrow(e) => ThrowsSomething(w, e)
    case STry(body, clauses, fin) =>
      && PlainSeq(w, body, true, false) && PlainSeq(w, fin, inHelper, inLoop)
      && (clauses != [] ==> |clauses| == 1 && clauses[0].ty.None? && PlainSeq(w, clauses[0].body, true, false))
      && (inHelper && inLoop ==> LoopsOkSeq(body, false) && LoopsOkClauses(clauses, false))
    case _ => true
  }

  ghost predicate PlainSeq(w: World, ss: seq<Stmt>, inHelper: bool, inLoop: bool)
    decreases ss, 0
  {
    ss == [] || (Plain(w, ss[0], inHelper, inLoop) && PlainSeq(w, ss[1..], inHelper, inLoop))
  }

  ghost predicate NotNullThrow(c: Completion) { c != Throw(Null) }

  lemma {:induction false} PlainIsFaithful(w: World, s: Stmt, st: Store, fuel: nat, inHelper: bool, inLoop: bool)
    requires NeverThrowsNull(w) && Plain(w, s, inHelper, inLoop)
    ensures Faithful(w, s, st, fuel, inHelper, inLoop) && NotNullThrow(Exec(w, s, st, fuel).c)
    decreases fuel, s, 1
  {
    match s
    case SEcho(es) => EchoThrowsNoNull(w, es, st);
    case SIf(c, thn, els) =>
      match w.eval(c, st) {
        case Raise(_, _) =>
        case Val(v, st') =>
          if w.truthy(v) { PlainSeqIsFaithful(w, thn, st', fuel, inHelper, inLoop); }
          else { PlainSeqIsFaithful(w, els, st', fuel, inHelper, inLoop); }
      }
    case SWhile(c, body) => PlainForIsFaithful(w, Some(c), [], body, st, fuel, inHelper);
    case SDo(body, c) => PlainDoIsFaithful(w, body, c, st, fuel, inHelper);
    case SFor(init, cond, step, body) =>
      ExprsThrowNoNull(w, init, st);
      var r := ExecExprs(w, init, st);
      if r.c.Normal? { PlainForIsFaithful(w, cond, step, body, r.st, fuel, inHelper); }
    case SForeach(e, v, body) =>
      match w.iter(e, st) {
        case IterRaise(_, _) =>
        case Started(at, st') => PlainEachIsFaithful(w, at, v, body, st', fuel, inHelper);
      }
    case SBlock(body) => PlainSeqIsFaithful(w, body, st, fuel, inHelper, inLoop);
    case STry(_, _, _) => PlainTryIsFaithful(w, s, st, fuel, inHelper, inLoop);
    case _ =>
  }

  lemma {:induction false} PlainTryIsFaithful(w: World, s: Stmt, st: Store, fuel: nat, inHelper: bool, inLoop: bool)
    requires s.STry? && NeverThrowsNull(w) && Plain(w, s, inHelper, inLoop)
    ensures Faithful(w, s, st, fuel, inHelper, inLoop) && NotNullThrow(Exec(w, s, st, fuel).c)
    decreases fuel, s, 0
  {
    PlainSeqIsFaithful(w, s.body, st, fuel, true, false);
    var o := ExecSeq(w, s.body, st, fuel);
    if o.c.Throw? && s.clauses != [] {
      PlainSeqIsFaithful(w, s.clauses[0].body, Bind(w, s.clauses[0], o.c.ex, o.st), fuel, true, false);
      FirstClauseDecides(w, s.clauses, o.c.ex, o.st, fuel);
      OneClauseIsFaithful(w, s.clauses[0], o.c.ex, o.st, fuel);
      assert s.clauses == [s.clauses[0]];
    }
    var handled := ProtectedAsEmitted(w, s, st, fuel);
    assert handled == ExecProtected(w, s, st, fuel);
    assert o.c.Throw? ==> FaithfulAll(w, s.clauses, o.c.ex, o.st, fuel);
    if inHelper && inLoop {
      NoStrayBreakSeq(w, s.body, st, fuel);
      if o.c.Throw? { NoStrayBreakClauses(w, s.clauses, o.c.ex, o.st, fuel); }
    }
    if !handled.c.OutOfFuel? {
      PlainSeqIsFaithful(w, s.fin, handled.st, fuel, inHelper, inLoop);
    }
  }

  lemma OneClauseIsFaithful(w: World, cl: Clause, x: Value, st: Store, fuel: nat)
    requires FaithfulSeq(w, cl.body, Bind(w, cl, x, st), fuel, true, false)
    ensures FaithfulAll(w, [cl], x, st, fuel)
  {
    assert [cl][1..] == [];
  }

  lemma {:induction false} PlainSeqIsFaithful(w: World, ss: seq<Stmt>, st: Store, fuel: nat, inHelper: bool, inLoop: bool)
    requires NeverThrowsNull(w) && PlainSeq(w, ss, inHelper, inLoop)
    ensures FaithfulSeq(w, ss, st, fuel, inHelper, inLoop) && NotNullThrow(ExecSeq(w, ss, st, fuel).c)
    decreases fuel, ss, 0
  {
    if ss != [] {
      PlainIsFaithful(w, ss[0], st, fuel, inHelper, inLoop);
      var r := Exec(w, ss[0], st, fuel);
      if r.c.Normal? { PlainSeqIsFaithful(w, ss[1..], r.st, fuel, inHelper, inLoop); }
    }
  }

  lemma EchoThrowsNoNull(w: World, es: seq<ExprId>, st: Store)
    requires NeverThrowsNull(w)
    ensures NotNullThrow(ExecEcho(w, es, st).c)
  {
  }

  lemma ExprsThrowNoNull(w: World, es: seq<ExprId>, st: Store)
    requires NeverThrowsNull(w)
    ensures NotNullThrow(ExecExprs(w, es, st).c)
  {
  }

  lemma {:induction false} PlainForIsFaithful(w: World, cond: Option<ExprId>, step: seq<ExprId>, body: seq<Stmt>, st: Store, fuel: nat, inHelper: bool)
    requires NeverThrowsNull(w) && PlainSeq(w, body, inHelper, true)
    ensures FaithfulFor(w, cond, step, body, st, fuel, inHelper) && NotNullThrow(ExecFor(w, cond, step, body, st, fuel).c)
    decreases fuel, body, 1
  {
    if fuel > 0 && Test(w, cond, st).Val? {
      var st' := Test(w, cond, st).st;
      PlainSeqIsFaithful(w, body, st', fuel, inHelper, true);
      var r := ExecSeq(w, body, st', fuel);
      ExprsThrowNoNull(w, step, r.st);
      var s := ExecExprs(w, step, r.st);
      if s.c.Normal? { PlainForIsFaithful(w, cond, step, body, s.st, fuel - 1, inHelper); }
    }
  }

  lemma {:induction false} PlainDoIsFaithful(w: World, body: seq<Stmt>, c: ExprId, st: Store, fuel: nat, inHelper: bool)
    requires NeverThrowsNull(w) && PlainSeq(w, body, inHelper, true)
    ensures FaithfulDo(w, body, c, st, fuel, inHelper) && NotNullThrow(ExecDo(w, body, c, st, fuel).c)
    decreases fuel, body, 1
  {
    if fuel > 0 {
      PlainSeqIsFaithful(w, body, st, fuel, inHelper, true);
      var r := ExecSeq(w, body, st, fuel);
      PlainDoIsFaithful(w, body, c, w.eval(c, r.st).st, fuel - 1, inHelper);
    }
  }

  lemma {:induction false} PlainEachIsFaithful(w: World, at: Cursor, v: LoopVars, body: seq<Stmt>, st: Store, fuel: nat, inHelper: bool)
    requires NeverThrowsNull(w) && PlainSeq(w, body, inHelper, true)
    ensures FaithfulEach(w, at, v, body, st, fuel, inHelper) && NotNullThrow(ExecEach(w, at, v, body, st, fuel).c)
    decreases fuel, body, 1
  {
    if fuel > 0 && w.item(at, st).Some? {
      var x := w.item(at, st).value;
      PlainSeqIsFaithful(w, body, BindItem(v, x, st), fuel, inHelper, true);
      PlainEachIsFaithful(w, x.next, v, body, ExecSeq(w, body, BindItem(v, x, st), fuel).st, fuel - 1, inHelper);
    }
  }

  /** A plain function body is compiled correctly, for every store and any number of iterations. */
  lemma PlainFunctionCorrect(w: World, body: seq<Stmt>, valued: bool, ids: Ids, st: Store, fuel: nat)
    requires LoopsOkSeq(body, false) && NeverThrowsNull(w) && PlainSeq(w, body, false, false)
    ensures var o := ExecSeq(w, body, st, fuel);
            var r := RunSeq(w, LowerSeq(body, Place(false, 0, [], valued), ids).code, st, Env(0, Null), Null, fuel);
            && r.st == o.st
            && (o.c.Normal? <==> r.c.Falls?)
            && (o.c.OutOfFuel? <==> r.c.Starves?)
            && (o.c.Return? <==> r.c.Returns?) && (o.c.Return? && valued ==> r.c.v == o.c.v)
            && (o.c.Throw? <==> r.c.Throws?) && (o.c.Throw? ==> r.c.ex == o.c.ex)
  {
    PlainSeqIsFaithful(w, body, st, fuel, false, false);
    FunctionCorrect(w, body, valued, ids, st, fuel);
  }

  // ----- Programs outside the check -----

  /** Expression e yields the number e, and expression 0 yields null. */
  function Numbers(): World {
    World((e: ExprId, st: Store) => Val(if e == 0 then Null else Scalar(e), st),
          (v: Value) => v != Null,
          (e: ExprId, st: Store) => Started(0, st),
          (at: Cursor, st: Store) => None,
          (t: TypeId, v: Value) => false,
          (t: Option<TypeId>) => false,
          (t: Option<TypeId>, v: Value) => v)
  }

  const TOP: Place := Place(false, 0, [], true)

  const EMPTY: Store := Store(map[], [], Null)

  /** After `throw 1`. */
  const THROWN: Store := Store(map[], [], Scalar(1))

  function Compiled(body: seq<Stmt>, fuel: nat): Result {
    RunSeq(Numbers(), LowerSeq(body, TOP, Ids(0, 0)).code, EMPTY, Env(0, Null), Null, fuel)
  }

  /** `try { throw null; }`: the exception is swallowed. */
  lemma NullThrowIsSwallowed()
    ensures var body := [STry([SThrow(0)], [], [])];
            ExecSeq(Numbers(), body, EMPTY, 1).c == Throw(Null) && Compiled(body, 1).c == Falls
  {
    var s := STry([SThrow(0)], [], []);
    TryOnly(s, 1);
    var t := LowerStmt(s, TOP, Ids(0, 0)).code[0];
    ProtectedCorrect(Numbers(), s, t, TOP, false, Ids(0, 0), EMPTY, 1);
    QuietTry(t, 1);
  }

  lemma TryOnly(s: Stmt, fuel: nat)
    requires s.STry?
    ensures ExecSeq(Numbers(), [s], EMPTY, fuel) == Exec(Numbers(), s, EMPTY, fuel)
    ensures Compiled([s], fuel) == Run(Numbers(), LowerStmt(s, TOP, Ids(0, 0)).code[0], EMPTY, Env(0, Null), Null, fuel)
  {
    assert LowerSeq([s], TOP, Ids(0, 0)).code == [LowerStmt(s, TOP, Ids(0, 0)).code[0]];
    RunOne(Numbers(), LowerStmt(s, TOP, Ids(0, 0)).code[0], EMPTY, Env(0, Null), Null, fuel);
    assert [s][1..] == [];
  }

  /** An exception that no clause catches: every clause runs, and when they end normally the exception
      is gone and the code goes on behind the try statement. */
  lemma UncaughtIsSwallowed(w: World, s: Stmt, p: Place, inLoop: bool, ids: Ids, st: Store, env: Env, ex: Value, fuel: nat)
    requires s.STry? && s.clauses != [] && Placed(p, inLoop) && LoopsOk(s, inLoop) && Clear(env)
    requires PartsFaithful(w, s, st, fuel, p.inHelper, p.loopDepth > 0)
    requires ExecSeq(w, s.body, st, fuel).c.Throw?
    requires var o := ExecSeq(w, s.body, st, fuel);
             && (forall k :: 0 <= k < |s.clauses| ==> !Catches(w, s.clauses[k], o.c.ex))
             && ExecAll(w, s.clauses, o.c.ex, o.st, fuel).c.Normal?
             && ExecSeq(w, s.fin, o.st, fuel).c.Normal? && TryAsEmitted(w, s, st, fuel).c.Normal?
    ensures Exec(w, s, st, fuel).c == Throw(ExecSeq(w, s.body, st, fuel).c.ex)
    ensures var r := RunSeq(w, LowerStmt(s, p, ids).code, st, env, ex, fuel);
            r.c == Falls && r.st == TryAsEmitted(w, s, st, fuel).st
  {
    var o := ExecSeq(w, s.body, st, fuel);
    NoClauseCatches(w, s.clauses, o.c.ex, o.st, fuel);
    TryRunsAsEmitted(w, s, p, inLoop, ids, st, env, ex, fuel);
  }

  /** `try { throw 1; } catch (T $e) { }` where the exception is no T: it is caught all the same. */
  lemma TypedClauseCatchesEverything()
    ensures var body := [STry([SThrow(1)], [Clause(Some(7), "e", [])], [])];
            ExecSeq(Numbers(), body, EMPTY, 1).c == Throw(Scalar(1)) && Compiled(body, 1).c == Falls
  {
    var cl := Clause(Some(7), "e", []);
    var s := STry([SThrow(1)], [cl], []);
    ThrowsOne();
    OneClauseIsFaithful(Numbers(), cl, Scalar(1), THROWN, 1);
    assert [cl][1..] == [];
    NoClauseCatches(Numbers(), [cl], Scalar(1), THROWN, 1);
    var bound := Bind(Numbers(), cl, Scalar(1), THROWN);
    assert ExecAll(Numbers(), [], Scalar(1), bound, 1) == Outcome(Normal, bound);
    assert ExecAll(Numbers(), [cl], Scalar(1), THROWN, 1) == Outcome(Normal, bound);
    TopTryRuns(s, 1);
  }

  lemma TopTryRuns(s: Stmt, fuel: nat)
    requires s.STry? && s.fin == [] && LoopsOk(s, false) && PartsFaithful(Numbers(), s, EMPTY, fuel, false, false)
    requires ProtectedAsEmitted(Numbers(), s, EMPTY, fuel).c.Normal? && !ExecProtected(Numbers(), s, EMPTY, fuel).c.OutOfFuel?
    ensures var o := ExecProtected(Numbers(), s, EMPTY, fuel); ExecSeq(Numbers(), [s], EMPTY, fuel) == Pending(o.c, o.st)
    ensures var r := Compiled([s], fuel); r.c == Falls && r.st == ProtectedAsEmitted(Numbers(), s, EMPTY, fuel).st
  {
    TryOnly(s, fuel);
    TryRunsAsEmitted(Numbers(), s, TOP, false, Ids(0, 0), EMPTY, Env(0, Null), Null, fuel);
    RunOne(Numbers(), LowerStmt(s, TOP, Ids(0, 0)).code[0], EMPTY, Env(0, Null), Null, fuel);
  }

  lemma ThrowsOne()
    ensures ExecSeq(Numbers(), [SThrow(1)], EMPTY, 1) == Outcome(Throw(Scalar(1)), THROWN)
    ensures FaithfulSeq(Numbers(), [SThrow(1)], EMPTY, 1, true, false)
  {
    assert [SThrow(1)][1..] == [];
  }

  /** `try { throw 1; } catch ($e) { echo 2; } catch ($e) { echo 3; }`: both clauses run. */
  lemma EveryClauseRuns()
    ensures var body := [STry([SThrow(1)], [EchoClause(2), EchoClause(3)], [])];
            ExecSeq(Numbers(), body, EMPTY, 1).st.out == [Scalar(2)] && Compiled(body, 1).st.out == [Scalar(2), Scalar(3)]
  {
    ThrowsOne();
    BothClausesRun();
    TopTryRuns(STry([SThrow(1)], [EchoClause(2), EchoClause(3)], []), 1);
  }

  lemma BothClausesRun()
    ensures var both := [EchoClause(2), EchoClause(3)];
            && FaithfulAll(Numbers(), both, Scalar(1), THROWN, 1)
            && ExecClauses(Numbers(), both, Scalar(1), THROWN, 1).c == ExecAll(Numbers(), both, Scalar(1), THROWN, 1).c == Normal
            && ExecClauses(Numbers(), both, Scalar(1), THROWN, 1).st.out == [Scalar(2)]
            && ExecAll(Numbers(), both, Scalar(1), THROWN, 1).st.out == [Scalar(2), Scalar(3)]
  {
    var both := [EchoClause(2), EchoClause(3)];
    EchoClauseRuns(2, THROWN);
    var st2 := ExecSeq(Numbers(), EchoClause(2).body, Bind(Numbers(), EchoClause(2), Scalar(1), THROWN), 1).st;
    EchoClauseRuns(3, st2);
    OneClauseIsFaithful(Numbers(), EchoClause(3), Scalar(1), st2, 1);
    assert both[1..] == [EchoClause(3)] && [EchoClause(3)][1..] == [];
    var st3 := ExecSeq(Numbers(), EchoClause(3).body, Bind(Numbers(), EchoClause(3), Scalar(1), st2), 1).st;
    assert ExecAll(Numbers(), [EchoClause(3)], Scalar(1), st2, 1) == Outcome(Normal, st3);
  }

  function EchoClause(n: nat): Clause { Clause(None, "e", [SEcho([n])]) }

  lemma EchoClauseRuns(n: nat, st: Store)
    requires n != 0
    ensures var bound := Bind(Numbers(), EchoClause(n), Scalar(1), st);
            && FaithfulSeq(Numbers(), EchoClause(n).body, bound, 1, true, false)
            && ExecSeq(Numbers(), EchoClause(n).body, bound, 1) == Outcome(Normal, bound.(out := st.out + [Scalar(n)]))
  {
    var w, bound := Numbers(), Bind(Numbers(), EchoClause(n), Scalar(1), st);
    assert [SEcho([n])][1..] == [] && [n][1..] == [];
    assert w.eval(n, bound) == Val(Scalar(n), bound);
    assert ExecEcho(w, [], bound.(out := st.out + [Scalar(n)])).c == Normal;
    assert ExecSeq(w, EchoClause(n).body, bound, 1) == ExecEcho(w, [n], bound);
  }

  const INNER: Stmt := STry([SBreak], [], [])

  const LOOP: Stmt := SWhile(1, [INNER])

  /** `try { while (1) { try { break; } } echo 5; }`: the inner `break` leaves the outer try as well. */
  lemma BreakLeavesTheOuterTry()
    ensures var body := [STry([LOOP, SEcho([5])], [], [])];
            ExecSeq(Numbers(), body, EMPTY, 2).st.out == [Scalar(5)]
            && Compiled(body, 2).st.out == []
  {
    var s := STry([LOOP, SEcho([5])], [], []);
    TryOnly(s, 2);
    LoopEnds();
    assert [LOOP, SEcho([5])][1..] == [SEcho([5])] && [SEcho([5])][1..] == [];
    assert ExecEcho(Numbers(), [5], EMPTY) == Outcome(Normal, Store(map[], [Scalar(5)], Null));
    assert ExecSeq(Numbers(), s.body, EMPTY, 2) == Outcome(Normal, Store(map[], [Scalar(5)], Null));
    CompiledLoopLeaves();
    var t := LowerStmt(s, TOP, Ids(0, 0)).code[0];
    var tl := LowerStmt(LOOP, TOP.InTry(), Ids(0, 1));
    var after := LowerSeq([SEcho([5])], TOP.InTry(), tl.ids).code + [Line(ReturnNull)];
    assert tl.code == [tl.code[0]];
    var rest := LowerSeq([SEcho([5])], TOP.InTry(), tl.ids);
    assert LowerSeq(s.body, TOP.InTry(), Ids(0, 1)).code == tl.code + rest.code;
    assert t.body == tl.code + rest.code + [Line(ReturnNull)] == [tl.code[0]] + after;
    RunFirst(Numbers(), tl.code[0], after, EMPTY, Env(0, Null), Null, 2);
    QuietTry(t, 2);
  }

  lemma LoopEnds()
    ensures Exec(Numbers(), LOOP, EMPTY, 2) == Outcome(Normal, EMPTY)
  {
    assert ExecSeq(Numbers(), INNER.body, EMPTY, 2) == Outcome(Break, EMPTY);
    assert ExecProtected(Numbers(), INNER, EMPTY, 2) == Outcome(Break, EMPTY);
    assert ExecSeq(Numbers(), [INNER], EMPTY, 2) == Outcome(Break, EMPTY);
  }

  lemma LowerOne(s: Stmt, p: Place, ids: Ids)
    ensures LowerSeq([s], p, ids) == LowerStmt(s, p, ids)
  {
    assert [s][1..] == [];
    assert LowerStmt(s, p, ids).code + [] == LowerStmt(s, p, ids).code;
  }

  lemma CompiledLoopLeaves()
    ensures Run(Numbers(), LowerStmt(LOOP, TOP.InTry(), Ids(0, 1)).code[0], EMPTY, Env(0, Null), Null, 2)
         == Result(Returns(Null), EMPTY, Env(2, Null))
  {
    var w, q := Numbers(), TOP.InTry().InLoop(0);
    var t := LowerStmt(INNER, q, Ids(1, 1)).code[0];
    LowerOne(SBreak, q.InTry(), Ids(1, 2));
    assert t.body == [Line(LeaveHelper(2))] + [Line(ReturnNull)];
    RunFirst(w, Line(LeaveHelper(2)), [Line(ReturnNull)], EMPTY, Env(0, Null), Null, 2);
    var left := Result(Returns(Null), EMPTY, Env(2, Null));
    assert RunDispatch([Forward], Null, Env(2, Null), EMPTY, Env(0, Null)) == left;
    assert t.dispatch[1..] == [Forward];
    assert Run(w, t, EMPTY, Env(0, Null), Null, 2) == left;
    LowerOne(INNER, q, Ids(1, 1));
    RunFirst(w, t, [Line(Label(0))], EMPTY, Env(0, Null), Null, 2);
  }

  /** A try statement at the top of a function goes on behind it unless an exception or a return is pending. */
  lemma QuietTry(t: Code, fuel: nat)
    requires t.TryBlock? && t.fin == [] && t.dispatch == Dispatches(TOP)
    requires var r := HpTryRun(Numbers(), t, EMPTY, fuel);
             !r.c.Starves? && HelperValue(r.c) == Null && r.env.act != 1
    ensures Run(Numbers(), t, EMPTY, Env(0, Null), Null, fuel)
         == Result(Falls, HpTryRun(Numbers(), t, EMPTY, fuel).st, Env(0, Null))
  {
    var r := HpTryRun(Numbers(), t, EMPTY, fuel);
    var ds := Dispatches(TOP);
    assert ds[1..] == [OnReturn(true)] && ds[1..][1..] == [];
    assert RunDispatch(ds[1..], Null, r.env, r.st, Env(0, Null)) == Result(Falls, r.st, Env(0, Null));
  }
}
