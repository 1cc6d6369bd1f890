/** The statements of a HolyPHP function body and what running them means.

    Expressions are not modelled one by one: a `World` says what evaluating each of them
    does to the store, what value it yields and whether it throws. A statement about every
    world is a statement about every choice of expressions, calls and printed output. */
module SourceLanguage {
  import opened Basics

  type ExprId = nat

  type TypeId = nat

  datatype Value = Null | Scalar(n: int) | Str(s: string) | Object(id: nat)

  /** The variables of a frame, everything echoed so far, and the value that was thrown last. */
  datatype Store = Store(vars: map<string, Value>, out: seq<Value>, ex: Value)

  datatype Eval = Val(v: Value, st: Store) | Raise(ex: Value, st: Store)

  /** Where an iteration stands; what it finds there depends on the store, so a body may change what it
      iterates over. */
  type Cursor = nat

  datatype Iter = Started(at: Cursor, st: Store) | IterRaise(ex: Value, st: Store)

  datatype Item = Item(key: Value, v: Value, next: Cursor)

  /** The variables of `foreach (... as $k => $v)`. */
  datatype LoopVars = LoopVars(k: Option<string>, v: string)

  /** Everything the statements leave to expressions and to the runtime. */
  datatype World = World(
    eval: (ExprId, Store) -> Eval,
    truthy: Value -> bool,
    iter: (ExprId, Store) -> Iter,
    item: (Cursor, Store) -> Option<Item>,
    catches: (TypeId, Value) -> bool,
    text: Option<TypeId> -> bool,
    view: (Option<TypeId>, Value) -> Value)

  datatype Stmt =
    | SExec(e: ExprId)
    | SEcho(es: seq<ExprId>)
    | SIf(c: ExprId, thn: seq<Stmt>, els: seq<Stmt>)
    | SWhile(c: ExprId, body: seq<Stmt>)
    | SDo(body: seq<Stmt>, c: ExprId)
    | SFor(init: seq<ExprId>, cond: Option<ExprId>, step: seq<ExprId>, body: seq<Stmt>)
    | SForeach(e: ExprId, v: LoopVars, body: seq<Stmt>)
    | SBreak
    | SContinue
    | SReturn(value: Option<ExprId>)
    | SThrow(e: ExprId)
    | SBlock(body: seq<Stmt>)
    | STry(body: seq<Stmt>, clauses: seq<Clause>, fin: seq<Stmt>)

  /** `catch (ty $v) { body }`; a clause without a type catches everything. */
  datatype Clause = Clause(ty: Option<TypeId>, v: string, body: seq<Stmt>)

  datatype Completion = Normal | Break | Continue | Return(v: Value) | Throw(ex: Value) | OutOfFuel

  datatype Outcome = Outcome(c: Completion, st: Store)

  function Thrown(x: Value, st: Store): Outcome { Outcome(Throw(x), st.(ex := x)) }

  /** A completion that was waiting for `finally` goes on; an exception is thrown anew. */
  function Pending(c: Completion, st: Store): Outcome { if c.Throw? then Thrown(c.ex, st) else Outcome(c, st) }

  // ----- Running statements. Only loop iterations consume fuel. -----

  function Exec(w: World, s: Stmt, st: Store, fuel: nat): Outcome
    decreases fuel, s, 1
  {
    match s
    case SExec(e) =>
      (match w.eval(e, st)
       case Val(_, st') => Outcome(Normal, st')
       case Raise(x, st') => Thrown(x, st'))
    case SEcho(es) => ExecEcho(w, es, st)
    case SIf(c, thn, els) =>
      (match w.eval(c, st)
       case Raise(x, st') => Thrown(x, st')
       case Val(v, st') => if w.truthy(v) then ExecSeq(w, thn, st', fuel) else ExecSeq(w, els, st', fuel))
    case SWhile(c, body) => ExecFor(w, Some(c), [], body, st, fuel)
    case SDo(body, c) => ExecDo(w, body, c, st, fuel)
    case SFor(init, cond, step, body) =>
      var r := ExecExprs(w, init, st);
      if r.c.Normal? then ExecFor(w, cond, step, body, r.st, fuel) else r
    case SForeach(e, v, body) =>
      (match w.iter(e, st)
       case IterRaise(x, st') => Thrown(x, st')
       case Started(at, st') => ExecEach(w, at, v, body, st', fuel))
    case SBreak => Outcome(Break, st)
    case SContinue => Outcome(Continue, st)
    case SReturn(None) => Outcome(Return(Null), st)
    case SReturn(Some(e)) =>
      (match w.eval(e, st)
       case Val(v, st') => Outcome(Return(v), st')
       case Raise(x, st') => Thrown(x, st'))
    case SThrow(e) =>
      (match w.eval(e, st)
       case Val(v, st') => Thrown(v, st')
       case Raise(x, st') => Thrown(x, st'))
    case SBlock(body) => ExecSeq(w, body, st, fuel)
    case STry(body, clauses, fin) =>
      var handled := ExecProtected(w, s, st, fuel);
      if handled.c.OutOfFuel? then handled else
      var last := ExecSeq(w, fin, handled.st, fuel);
      if last.c.Normal? then Pending(handled.c, last.st) else last
  }

  function ExecSeq(w: World, ss: seq<Stmt>, st: Store, fuel: nat): Outcome
    decreases fuel, ss, 0
  {
    if ss == [] then Outcome(Normal, st) else
    var r := Exec(w, ss[0], st, fuel);
    if r.c.Normal? then ExecSeq(w, ss[1..], r.st, fuel) else r
  }

  /** The `try` body followed, when it throws, by the first clause that catches the exception. */
  function ExecProtected(w: World, s: Stmt, st: Store, fuel: nat): Outcome
    requires s.STry?
    decreases fuel, s, 0
  {
    var r := ExecSeq(w, s.body, st, fuel);
    if r.c.Throw? then ExecClauses(w, s.clauses, r.c.ex, r.st, fuel) else r
  }

  function ExecClauses(w: World, clauses: seq<Clause>, x: Value, st: Store, fuel: nat): Outcome
    decreases fuel, clauses, 0
  {
    if clauses == [] then Outcome(Throw(x), st)
    else if Catches(w, clauses[0], x) then
      ExecSeq(w, clauses[0].body, Bind(w, clauses[0], x, st), fuel)
    else ExecClauses(w, clauses[1..], x, st, fuel)
  }

  predicate Catches(w: World, clause: Clause, x: Value) {
    clause.ty.None? || w.catches(clause.ty.value, x)
  }

  /** The variable of a clause; one of string type takes the message of the value thrown last. */
  function Bind(w: World, clause: Clause, x: Value, st: Store): Store {
    st.(vars := st.vars[clause.v := View(w, clause.ty, x, st)])
  }

  function View(w: World, ty: Option<TypeId>, x: Value, st: Store): Value { w.view(ty, if w.text(ty) then st.ex else x) }

  function ExecEcho(w: World, es: seq<ExprId>, st: Store): Outcome {
    if es == [] then Outcome(Normal, st) else
    match w.eval(es[0], st)
    case Raise(x, st') => Thrown(x, st')
    case Val(v, st') => ExecEcho(w, es[1..], st'.(out := st'.out + [v]))
  }

  function ExecExprs(w: World, es: seq<ExprId>, st: Store): Outcome {
    if es == [] then Outcome(Normal, st) else
    match w.eval(es[0], st)
    case Raise(x, st') => Thrown(x, st')
    case Val(_, st') => ExecExprs(w, es[1..], st')
  }

  /** `for (; cond; step) body` after its initialisers; `while` is the case without steps. */
  function ExecFor(w: World, cond: Option<ExprId>, step: seq<ExprId>, body: seq<Stmt>, st: Store, fuel: nat): Outcome
    decreases fuel, body, 1
  {
    if fuel == 0 then Outcome(OutOfFuel, st) else
    match Test(w, cond, st)
    case Raise(x, st') => Thrown(x, st')
    case Val(v, st') =>
      if !w.truthy(v) && cond.Some? then Outcome(Normal, st') else
      var r := ExecSeq(w, body, st', fuel);
      if r.c.Break? then Outcome(Normal, r.st)
      else if !Iterates(r.c) then r
      else
        var s := ExecExprs(w, step, r.st);
        if s.c.Normal? then ExecFor(w, cond, step, body, s.st, fuel - 1) else s
  }

  function Test(w: World, cond: Option<ExprId>, st: Store): Eval {
    if cond.Some? then w.eval(cond.value, st) else Val(Null, st)
  }

  /** Completions of a loop body after which the loop goes round again. */
  predicate Iterates(c: Completion) { c.Normal? || c.Continue? }

  function ExecDo(w: World, body: seq<Stmt>, c: ExprId, st: Store, fuel: nat): Outcome
    decreases fuel, body, 1
  {
    if fuel == 0 then Outcome(OutOfFuel, st) else
    var r := ExecSeq(w, body, st, fuel);
    if r.c.Break? then Outcome(Normal, r.st)
    else if !Iterates(r.c) then r
    else match w.eval(c, r.st)
         case Raise(x, st') => Thrown(x, st')
         case Val(v, st') => if w.truthy(v) then ExecDo(w, body, c, st', fuel - 1) else Outcome(Normal, st')
  }

  function ExecEach(w: World, at: Cursor, v: LoopVars, body: seq<Stmt>, st: Store, fuel: nat): Outcome
    decreases fuel, body, 1
  {
    if fuel == 0 then Outcome(OutOfFuel, st) else
    match w.item(at, st)
    case None => Outcome(Normal, st)
    case Some(x) =>
      var r := ExecSeq(w, body, BindItem(v, x, st), fuel);
      if r.c.Break? then Outcome(Normal, r.st)
      else if !Iterates(r.c) then r
      else ExecEach(w, x.next, v, body, r.st, fuel - 1)
  }

  function BindItem(v: LoopVars, x: Item, st: Store): Store {
    var bound := st.(vars := st.vars[v.v := x.v]);
    if v.k.Some? then bound.(vars := bound.vars[v.k.value := x.key]) else bound
  }

  // ----- What the parser already guarantees -----

  /** `break` and `continue` stand inside a loop. */
  predicate LoopsOk(s: Stmt, inLoop: bool)
    decreases s, 0
  {
    match s
    case SBreak => inLoop
    case SContinue => inLoop
    case SIf(_, thn, els) => LoopsOkSeq(thn, inLoop) && LoopsOkSeq(els, inLoop)
    case SWhile(_, body) => LoopsOkSeq(body, true)
    case SDo(body, _) => LoopsOkSeq(body, true)
    case SFor(_, _, _, body) => LoopsOkSeq(body, true)
    case SForeach(_, _, body) => LoopsOkSeq(body, true)
    case SBlock(body) => LoopsOkSeq(body, inLoop)
    case STry(body, clauses, fin) =>
      LoopsOkSeq(body, inLoop) && LoopsOkClauses(clauses, inLoop) && LoopsOkSeq(fin, inLoop)
    case _ => true
  }

  predicate LoopsOkSeq(ss: seq<Stmt>, inLoop: bool)
    decreases ss, 0
  {
    ss == [] || (LoopsOk(ss[0], inLoop) && LoopsOkSeq(ss[1..], inLoop))
  }

  predicate LoopsOkClauses(clauses: seq<Clause>, inLoop: bool)
    decreases clauses, 0
  {
    clauses == [] || (LoopsOkSeq(clauses[0].body, inLoop) && LoopsOkClauses(clauses[1..], inLoop))
  }

  predicate LeavesLoop(c: Completion) { c.Break? || c.Continue? }

  /** Outside every loop nothing completes by `break` or `continue`. */
  lemma {:induction false} NoStrayBreak(w: World, s: Stmt, st: Store, fuel: nat)
    requires LoopsOk(s, false)
    ensures !LeavesLoop(Exec(w, s, st, fuel).c)
    decreases fuel, s, 0
  {
    match s
    case SEcho(es) => EchoCompletes(w, es, st);
    case SIf(c, thn, els) =>
      match w.eval(c, st) {
        case Raise(_, _) =>
        case Val(_, st') => NoStrayBreakSeq(w, thn, st', fuel); NoStrayBreakSeq(w, els, st', fuel);
      }
    case SWhile(c, body) => ForKeepsBreaks(w, Some(c), [], body, st, fuel);
    case SDo(body, c) => DoKeepsBreaks(w, body, c, st, fuel);
    case SFor(init, cond, step, body) =>
      ExprsComplete(w, init, st);
      ForKeepsBreaks(w, cond, step, body, ExecExprs(w, init, st).st, fuel);
    case SForeach(e, v, body) =>
      match w.iter(e, st) {
        case IterRaise(_, _) =>
        case Started(at, st') => EachKeepsBreaks(w, at, v, body, st', fuel);
      }
    case SBlock(body) => NoStrayBreakSeq(w, body, st, fuel);
    case STry(body, clauses, fin) =>
      NoStrayBreakSeq(w, body, st, fuel);
      var r := ExecSeq(w, body, st, fuel);
      if r.c.Throw? { NoStrayBreakClauses(w, clauses, r.c.ex, r.st, fuel); }
      NoStrayBreakSeq(w, fin, ExecProtected(w, s, st, fuel).st, fuel);
    case _ =>
  }

  lemma {:induction false} NoStrayBreakSeq(w: World, ss: seq<Stmt>, st: Store, fuel: nat)
    requires LoopsOkSeq(ss, false)
    ensures !LeavesLoop(ExecSeq(w, ss, st, fuel).c)
    decreases fuel, ss, 0
  {
    if ss != [] {
      NoStrayBreak(w, ss[0], st, fuel);
      NoStrayBreakSeq(w, ss[1..], Exec(w, ss[0], st, fuel).st, fuel);
    }
  }

  lemma {:induction false} NoStrayBreakClauses(w: World, clauses: seq<Clause>, x: Value, st: Store, fuel: nat)
    requires LoopsOkClauses(clauses, false)
    ensures !LeavesLoop(ExecClauses(w, clauses, x, st, fuel).c)
    decreases fuel, clauses, 0
  {
    if clauses != [] {
      if Catches(w, clauses[0], x) {
        NoStrayBreakSeq(w, clauses[0].body, Bind(w, clauses[0], x, st), fuel);
      } else {
        NoStrayBreakClauses(w, clauses[1..], x, st, fuel);
      }
    }
  }

  lemma EchoCompletes(w: World, es: seq<ExprId>, st: Store)
    ensures var c := ExecEcho(w, es, st).c; c.Normal? || c.Throw?
  {
  }

  lemma ExprsComplete(w: World, es: seq<ExprId>, st: Store)
    ensures var c := ExecExprs(w, es, st).c; c.Normal? || c.Throw?
  {
  }

  lemma {:induction false} ForKeepsBreaks(w: World, cond: Option<ExprId>, step: seq<ExprId>, body: seq<Stmt>, st: Store, fuel: nat)
    ensures !LeavesLoop(ExecFor(w, cond, step, body, st, fuel).c)
    decreases fuel
  {
    if fuel > 0 && Test(w, cond, st).Val? {
      var r := ExecSeq(w, body, Test(w, cond, st).st, fuel);
      ExprsComplete(w, step, r.st);
      ForKeepsBreaks(w, cond, step, body, ExecExprs(w, step, r.st).st, fuel - 1);
    }
  }

  lemma {:induction false} DoKeepsBreaks(w: World, body: seq<Stmt>, c: ExprId, st: Store, fuel: nat)
    ensures !LeavesLoop(ExecDo(w, body, c, st, fuel).c)
    decreases fuel
  {
    if fuel > 0 {
      var r := ExecSeq(w, body, st, fuel);
      DoKeepsBreaks(w, body, c, w.eval(c, r.st).st, fuel - 1);
    }
  }

  lemma {:induction false} EachKeepsBreaks(w: World, at: Cursor, v: LoopVars, body: seq<Stmt>, st: Store, fuel: nat)
    ensures !LeavesLoop(ExecEach(w, at, v, body, st, fuel).c)
    decreases fuel
  {
    if fuel > 0 && w.item(at, st).Some? {
      var x := w.item(at, st).value;
      EachKeepsBreaks(w, x.next, v, body, ExecSeq(w, body, BindItem(v, x, st), fuel).st, fuel - 1);
    }
  }

  // ----- The value thrown last is the one a clause is given -----

  predicate ThrownLast(o: Outcome) { o.c.Throw? ==> o.st.ex == o.c.ex }

  /** So the first clause that runs is bound to the exception it catches, whatever its type. */
  lemma {:induction false} ExceptionIsLast(w: World, s: Stmt, st: Store, fuel: nat)
    ensures ThrownLast(Exec(w, s, st, fuel))
    decreases fuel, s, 0
  {
    match s
    case SEcho(es) => EchoThrowsLast(w, es, st);
    case SIf(c, thn, els) =>
      match w.eval(c, st) {
        case Raise(_, _) =>
        case Val(_, st') => ExceptionIsLastSeq(w, thn, st', fuel); ExceptionIsLastSeq(w, els, st', fuel);
      }
    case SWhile(c, body) => ForThrowsLast(w, Some(c), [], body, st, fuel);
    case SDo(body, c) => DoThrowsLast(w, body, c, st, fuel);
    case SFor(init, cond, step, body) =>
      ExprsThrowLast(w, init, st);
      ForThrowsLast(w, cond, step, body, ExecExprs(w, init, st).st, fuel);
    case SForeach(e, v, body) =>
      match w.iter(e, st) {
        case IterRaise(_, _) =>
        case Started(at, st') => EachThrowsLast(w, at, v, body, st', fuel);
      }
    case SBlock(body) => ExceptionIsLastSeq(w, body, st, fuel);
    case STry(_, _, fin) => ExceptionIsLastSeq(w, fin, ExecProtected(w, s, st, fuel).st, fuel);
    case _ =>
  }

  lemma {:induction false} ExceptionIsLastSeq(w: World, ss: seq<Stmt>, st: Store, fuel: nat)
    ensures ThrownLast(ExecSeq(w, ss, st, fuel))
    decreases fuel, ss, 0
  {
    if ss != [] {
      ExceptionIsLast(w, ss[0], st, fuel);
      ExceptionIsLastSeq(w, ss[1..], Exec(w, ss[0], st, fuel).st, fuel);
    }
  }

  lemma EchoThrowsLast(w: World, es: seq<ExprId>, st: Store)
    ensures ThrownLast(ExecEcho(w, es, st))
  {
  }

  lemma ExprsThrowLast(w: World, es: seq<ExprId>, st: Store)
    ensures ThrownLast(ExecExprs(w, es, st))
  {
  }

  lemma {:induction false} ForThrowsLast(w: World, cond: Option<ExprId>, step: seq<ExprId>, body: seq<Stmt>, st: Store, fuel: nat)
    ensures ThrownLast(ExecFor(w, cond, step, body, st, fuel))
    decreases fuel, body, 1
  {
    if fuel > 0 && Test(w, cond, st).Val? {
      ExceptionIsLastSeq(w, body, Test(w, cond, st).st, fuel);
      var r := ExecSeq(w, body, Test(w, cond, st).st, fuel);
      ExprsThrowLast(w, step, r.st);
      ForThrowsLast(w, cond, step, body, ExecExprs(w, step, r.st).st, fuel - 1);
    }
  }

  lemma {:induction false} DoThrowsLast(w: World, body: seq<Stmt>, c: ExprId, st: Store, fuel: nat)
    ensures ThrownLast(ExecDo(w, body, c, st, fuel))
    decreases fuel, body, 1
  {
    if fuel > 0 {
      ExceptionIsLastSeq(w, body, st, fuel);
      var r := ExecSeq(w, body, st, fuel);
      DoThrowsLast(w, body, c, w.eval(c, r.st).st, fuel - 1);
    }
  }

  lemma {:induction false} EachThrowsLast(w: World, at: Cursor, v: LoopVars, body: seq<Stmt>, st: Store, fuel: nat)
    ensures ThrownLast(ExecEach(w, at, v, body, st, fuel))
    decreases fuel, body, 1
  {
    if fuel > 0 && w.item(at, st).Some? {
      var x := w.item(at, st).value;
      ExceptionIsLastSeq(w, body, BindItem(v, x, st), fuel);
      EachThrowsLast(w, x.next, v, body, ExecSeq(w, body, BindItem(v, x, st), fuel).st, fuel - 1);
    }
  }
}
