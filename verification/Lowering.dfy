/** From statements to C: loops get a label that `continue` jumps to, and a try statement
    becomes two helper functions that report through a shared record how they were left. */
module Lowering {
  import opened Basics
  import opened SourceLanguage
  import opened TargetLanguage

  /** Where a statement stands: in a try helper or not, under how many loops of the C function
      being written, the stack of continue labels, and whether the function returns a value. */
  datatype Place = Place(inHelper: bool, loopDepth: nat, labels: seq<nat>, valued: bool) {
    predicate Ok() { loopDepth > 0 ==> labels != [] }

    function Innermost(): nat
      requires labels != []
    {
      labels[|labels| - 1]
    }

    function InLoop(lid: nat): Place { this.(loopDepth := loopDepth + 1, labels := labels + [lid]) }

    function InTry(): Place { this.(inHelper := true, loopDepth := 0) }
  }

  /** The next free label and the next free try number. */
  datatype Ids = Ids(labelId: nat, tryId: nat)

  datatype Lowered = Lowered(code: seq<Code>, ids: Ids)

  datatype Helpers = Helpers(body: seq<Code>, handler: seq<Code>, ids: Ids)

  function LowerStmt(s: Stmt, p: Place, ids: Ids): Lowered
    decreases s, 1
  {
    match s
    case SExec(e) => Lowered([Line(Evaluate(e))], ids)
    case SEcho(es) => Lowered(EchoLines(es), ids)
    case SIf(c, thn, els) =>
      var t := LowerSeq(thn, p, ids);
      var e := LowerSeq(els, p, t.ids);
      Lowered([If(c, t.code, els != [], e.code)], e.ids)
    case SWhile(c, body) =>
      var b := LowerSeq(body, p.InLoop(ids.labelId), ids.(labelId := ids.labelId + 1));
      Lowered([While(c, b.code + [Line(Label(ids.labelId))])], b.ids)
    case SDo(body, c) =>
      var b := LowerSeq(body, p.InLoop(ids.labelId), ids.(labelId := ids.labelId + 1));
      Lowered([Do(b.code + [Line(Label(ids.labelId))], c)], b.ids)
    case SFor(init, cond, step, body) =>
      var b := LowerSeq(body, p.InLoop(ids.labelId), ids.(labelId := ids.labelId + 1));
      Lowered([Block(EvalLines(init) + [For(cond, b.code + ([Line(Label(ids.labelId))] + EvalLines(step)))])], b.ids)
    case SForeach(e, v, body) =>
      var b := LowerSeq(body, p.InLoop(ids.labelId), ids.(labelId := ids.labelId + 1));
      Lowered([Foreach(e, v, b.code + [Line(Label(ids.labelId))])], b.ids)
    case SBreak => Lowered([Line(BreakOp(p))], ids)
    case SContinue => Lowered([Line(ContinueOp(p))], ids)
    case SReturn(value) => Lowered([Line(ReturnOp(value, p))], ids)
    case SThrow(e) => Lowered([Line(Raising(e))], ids)
    case SBlock(body) =>
      var b := LowerSeq(body, p, ids);
      Lowered([Block(b.code)], b.ids)
    case STry(body, clauses, fin) =>
      var h := LowerHelpers(s, p, ids.(tryId := ids.tryId + 1));
      var f := LowerSeq(fin, p, h.ids);
      Lowered([TryBlock(ids.tryId, h.body, h.handler, f.code, Dispatches(p))], f.ids)
  }

  /** The two helper functions of a try statement. */
  function LowerHelpers(s: Stmt, p: Place, ids: Ids): Helpers
    requires s.STry?
    decreases s, 0
  {
    var b := LowerSeq(s.body, p.InTry(), ids);
    var c := LowerClauses(s.clauses, p.InTry(), b.ids);
    Helpers(b.code + [Line(ReturnNull)], HandlerCode(s.clauses, c.code), c.ids)
  }

  function LowerSeq(ss: seq<Stmt>, p: Place, ids: Ids): Lowered
    decreases ss, 0
  {
    if ss == [] then Lowered([], ids) else
    var first := LowerStmt(ss[0], p, ids);
    var rest := LowerSeq(ss[1..], p, first.ids);
    Lowered(first.code + rest.code, rest.ids)
  }

  /** Every clause is emitted, one after the other. */
  function LowerClauses(clauses: seq<Clause>, p: Place, ids: Ids): Lowered
    decreases clauses, 0
  {
    if clauses == [] then Lowered([], ids) else
    var first := LowerSeq(clauses[0].body, p, ids);
    var rest := LowerClauses(clauses[1..], p, first.ids);
    Lowered([Line(BindEx(clauses[0].ty, clauses[0].v))] + first.code + rest.code, rest.ids)
  }

  /** Without clauses the handler hands the exception back; every helper ends in `return hp_null`. */
  function HandlerCode(clauses: seq<Clause>, code: seq<Code>): seq<Code> {
    code + (if clauses == [] then [Line(ReturnEx)] else []) + [Line(ReturnNull)]
  }

  function EchoLines(es: seq<ExprId>): seq<Code> {
    if es == [] then [] else [Line(Echo(es[0]))] + EchoLines(es[1..])
  }

  function EvalLines(es: seq<ExprId>): seq<Code> {
    if es == [] then [] else [Line(Evaluate(es[0]))] + EvalLines(es[1..])
  }

  function BreakOp(p: Place): Op {
    if p.inHelper && p.loopDepth == 0 then LeaveHelper(2) else BreakLoop
  }

  function ContinueOp(p: Place): Op {
    if p.inHelper && p.loopDepth == 0 then LeaveHelper(3)
    else if p.labels != [] then Goto(p.Innermost())
    else ContinueLoop
  }

  function ReturnOp(value: Option<ExprId>, p: Place): Op {
    if value.Some? then (if p.inHelper then SaveReturn(value.value) else ReturnExpr(value.value))
    else if p.inHelper then LeaveHelper(1)
    else ReturnVoid
  }

  function Dispatches(p: Place): seq<Dispatch> {
    if p.inHelper then [Rethrow, Forward]
    else if p.loopDepth == 0 then [Rethrow, OnReturn(p.valued)]
    else [Rethrow, OnReturn(p.valued), OnBreak, if p.labels != [] then OnContinueGoto(p.Innermost()) else OnContinue]
  }

  // ----- Where the emitted code means what the statement means -----

  /** The pending completion of a protected part reaches its destination: a null exception would be
      taken for "handled", and a helper cannot leave a loop of its own on behalf of an inner try. */
  predicate Delivers(handled: Completion, fin: Completion, inHelper: bool, inLoop: bool) {
    fin.Normal? ==> handled != Throw(Null) && (LeavesLoop(handled) ==> !(inHelper && inLoop))
  }

  /** What the emitted clauses do: each binds the exception, whatever its type, and runs, until one
      does not end normally. */
  function ExecAll(w: World, clauses: seq<Clause>, x: Value, st: Store, fuel: nat): Outcome
    decreases |clauses|
  {
    if clauses == [] then Outcome(Normal, st) else
    var r := ExecSeq(w, clauses[0].body, Bind(w, clauses[0], x, st), fuel);
    if r.c.Normal? then ExecAll(w, clauses[1..], x, r.st, fuel) else r
  }

  function ExecHandler(w: World, clauses: seq<Clause>, x: Value, st: Store, fuel: nat): Outcome {
    if clauses == [] then Outcome(Throw(x), st) else ExecAll(w, clauses, x, st, fuel)
  }

  /** The protected part and the whole of a try statement as emitted. */
  function ProtectedAsEmitted(w: World, s: Stmt, st: Store, fuel: nat): Outcome
    requires s.STry?
  {
    var r := ExecSeq(w, s.body, st, fuel);
    if r.c.Throw? then ExecHandler(w, s.clauses, r.c.ex, r.st, fuel) else r
  }

  function TryAsEmitted(w: World, s: Stmt, st: Store, fuel: nat): Outcome
    requires s.STry?
  {
    var handled := ProtectedAsEmitted(w, s, st, fuel);
    if handled.c.OutOfFuel? then handled else
    var last := ExecSeq(w, s.fin, handled.st, fuel);
    if last.c.Normal? then Pending(handled.c, last.st) else last
  }

  /** The clauses can be checked one by one: the first one catches, and it is the only one or its
      body does not end normally. */
  predicate FirstClauseCatches(w: World, clauses: seq<Clause>, x: Value, st: Store, fuel: nat) {
    clauses != [] ==>
      && Catches(w, clauses[0], x)
      && (|clauses| > 1 ==> !ExecSeq(w, clauses[0].body, Bind(w, clauses[0], x, st), fuel).c.Normal?)
  }

  /** A run in which every try statement handles its exception as its clauses say and delivers what is pending. */
  predicate Faithful(w: World, s: Stmt, st: Store, fuel: nat, inHelper: bool, inLoop: bool)
    decreases fuel, s, 1
  {
    match s
    case SIf(c, thn, els) =>
      (match w.eval(c, st)
       case Raise(_, _) => true
       case Val(v, st') =>
         if w.truthy(v) then FaithfulSeq(w, thn, st', fuel, inHelper, inLoop)
         else FaithfulSeq(w, els, st', fuel, inHelper, inLoop))
    case SWhile(c, body) => FaithfulFor(w, Some(c), [], body, st, fuel, inHelper)
    case SDo(body, c) => FaithfulDo(w, body, c, st, fuel, inHelper)
    case SFor(init, cond, step, body) =>
      var r := ExecExprs(w, init, st);
      r.c.Normal? ==> FaithfulFor(w, cond, step, body, r.st, fuel, inHelper)
    case SForeach(e, v, body) =>
      (match w.iter(e, st)
       case IterRaise(_, _) => true
       case Started(at, st') => FaithfulEach(w, at, v, body, st', fuel, inHelper))
    case SBlock(body) => FaithfulSeq(w, body, st, fuel, inHelper, inLoop)
    case STry(_, _, fin) =>
      && PartsFaithful(w, s, st, fuel, inHelper, inLoop)
      && var handled := ExecProtected(w, s, st, fuel);
      && handled == ProtectedAsEmitted(w, s, st, fuel)
      && (!handled.c.OutOfFuel? ==> Delivers(handled.c, ExecSeq(w, fin, handled.st, fuel).c, inHelper, inLoop))
    case _ => true
  }

  predicate PartsFaithful(w: World, s: Stmt, st: Store, fuel: nat, inHelper: bool, inLoop: bool)
    requires s.STry?
    decreases fuel, s, 0
  {
    && FaithfulSeq(w, s.body, st, fuel, true, false)
    && var r := ExecSeq(w, s.body, st, fuel);
    && (r.c.Throw? ==> FaithfulAll(w, s.clauses, r.c.ex, r.st, fuel))
    && var handled := ProtectedAsEmitted(w, s, st, fuel);
    && (!handled.c.OutOfFuel? ==> FaithfulSeq(w, s.fin, handled.st, fuel, inHelper, inLoop))
  }

  /** The same for the clauses that are run as emitted. */
  predicate FaithfulAll(w: World, clauses: seq<Clause>, x: Value, st: Store, fuel: nat)
    decreases fuel, clauses, 0
  {
    clauses == []
    || (&& FaithfulSeq(w, clauses[0].body, Bind(w, clauses[0], x, st), fuel, true, false)
        && var r := ExecSeq(w, clauses[0].body, Bind(w, clauses[0], x, st), fuel);
        && (r.c.Normal? ==> FaithfulAll(w, clauses[1..], x, r.st, fuel)))
  }

  predicate FaithfulSeq(w: World, ss: seq<Stmt>, st: Store, fuel: nat, inHelper: bool, inLoop: bool)
    decreases fuel, ss, 0
  {
    ss == []
    || (&& Faithful(w, ss[0], st, fuel, inHelper, inLoop)
        && var r := Exec(w, ss[0], st, fuel);
        && (r.c.Normal? ==> FaithfulSeq(w, ss[1..], r.st, fuel, inHelper, inLoop)))
  }

  predicate FaithfulFor(w: World, cond: Option<ExprId>, step: seq<ExprId>, body: seq<Stmt>, st: Store, fuel: nat, inHelper: bool)
    decreases fuel, body, 1
  {
    if fuel == 0 then true else
    match Test(w, cond, st)
    case Raise(_, _) => true
    case Val(v, st') =>
      if !w.truthy(v) && cond.Some? then true else
      && FaithfulSeq(w, body, st', fuel, inHelper, true)
      && var r := ExecSeq(w, body, st', fuel);
      && var s := ExecExprs(w, step, r.st);
      && (Iterates(r.c) && s.c.Normal? ==> FaithfulFor(w, cond, step, body, s.st, fuel - 1, inHelper))
  }

  predicate FaithfulDo(w: World, body: seq<Stmt>, c: ExprId, st: Store, fuel: nat, inHelper: bool)
    decreases fuel, body, 1
  {
    if fuel == 0 then true else
    && FaithfulSeq(w, body, st, fuel, inHelper, true)
    && var r := ExecSeq(w, body, st, fuel);
    && (Iterates(r.c) ==>
        match w.eval(c, r.st)
        case Raise(_, _) => true
        case Val(v, st') => w.truthy(v) ==> FaithfulDo(w, body, c, st', fuel - 1, inHelper))
  }

  predicate FaithfulEach(w: World, at: Cursor, v: LoopVars, body: seq<Stmt>, st: Store, fuel: nat, inHelper: bool)
    decreases fuel, body, 1
  {
    if fuel == 0 then true else
    match w.item(at, st)
    case None => true
    case Some(x) =>
      && FaithfulSeq(w, body, BindItem(v, x, st), fuel, inHelper, true)
      && var r := ExecSeq(w, body, BindItem(v, x, st), fuel);
      && (Iterates(r.c) ==> FaithfulEach(w, x.next, v, body, r.st, fuel - 1, inHelper))
  }
}
