/** The C statements that the back end emits, as trees, and what running them means.

    A `goto` reaches a label further down in the statement list that holds it or in one that
    encloses that list. A `TryBlock` carries the two helper functions that its call of
    `hp_try_run` names; they share the record `*_env` with it. */
module TargetLanguage {
  import opened Basics
  import opened SourceLanguage

  /** The record shared by a try statement and its helpers:
      act is 0 (normal), 1 (return), 2 (break) or 3 (continue). */
  datatype Env = Env(act: nat, ret: Value)

  datatype Op =
    | Evaluate(e: ExprId)
    | Echo(e: ExprId)
    | Raising(e: ExprId)                      // hp_throw(hv(e));
    | ReturnExpr(e: ExprId)
    | ReturnVoid
    | SaveReturn(e: ExprId)                   // _env->ret = hv(e); _env->act = 1; return hp_null;
    | LeaveHelper(act: nat)                   // _env->act = act; return hp_null;
    | BreakLoop
    | ContinueLoop
    | Goto(n: nat)
    | Label(n: nat)
    | BindEx(ty: Option<TypeId>, v: string)   // the catch variable, from _ex
    | ReturnEx                                // return _ex;
    | ReturnNull                              // return hp_null;

  /** What follows `finally`, in terms of the result of hp_try_run and of the shared record. */
  datatype Dispatch =
    | Rethrow
    | Forward                                 // hand act and ret to the enclosing helper's record
    | OnReturn(valued: bool)
    | OnBreak
    | OnContinueGoto(n: nat)
    | OnContinue

  datatype Code =
    | Line(op: Op)
    | If(c: ExprId, thn: seq<Code>, hasElse: bool, els: seq<Code>)
    | While(c: ExprId, body: seq<Code>)
    | Do(body: seq<Code>, c: ExprId)
    | For(cond: Option<ExprId>, body: seq<Code>)
    | Foreach(e: ExprId, v: LoopVars, body: seq<Code>)
    | Block(body: seq<Code>)
    | TryBlock(id: nat, body: seq<Code>, handler: seq<Code>, fin: seq<Code>, dispatch: seq<Dispatch>)

  datatype Exit = Falls | Breaks | Continues | Jumps(n: nat) | Returns(v: Value) | Throws(ex: Value) | Starves

  /** How a piece of code ended, the store, and the record `*_env` of the running helper. */
  datatype Result = Result(c: Exit, st: Store, env: Env)

  /** hp_throw keeps the value in a global before it jumps. */
  function Throwing(x: Value, st: Store, env: Env): Result { Result(Throws(x), st.(ex := x), env) }

  /** Where the first label n stands in a statement list; its length when it is not there. */
  function Find(ts: seq<Code>, n: nat): (k: nat)
    ensures k <= |ts|
    ensures k < |ts| ==> ts[k] == Line(Label(n))
  {
    if ts == [] then 0
    else if ts[0] == Line(Label(n)) then 0
    else 1 + Find(ts[1..], n)
  }

  function Run(w: World, t: Code, st: Store, env: Env, ex: Value, fuel: nat): Result
    decreases fuel, t, 1
  {
    match t
    case Line(op) => RunOp(w, op, st, env, ex)
    case If(c, thn, _, els) =>
      (match w.eval(c, st)
       case Raise(x, st') => Throwing(x, st', env)
       case Val(v, st') =>
         if w.truthy(v) then RunSeq(w, thn, st', env, ex, fuel) else RunSeq(w, els, st', env, ex, fuel))
    case While(c, body) => RunFor(w, Some(c), body, st, env, ex, fuel)
    case Do(body, c) => RunDo(w, body, c, st, env, ex, fuel)
    case For(cond, body) => RunFor(w, cond, body, st, env, ex, fuel)
    case Foreach(e, v, body) =>
      (match w.iter(e, st)
       case IterRaise(x, st') => Throwing(x, st', env)
       case Started(at, st') => RunEach(w, at, v, body, st', env, ex, fuel))
    case Block(body) => RunSeq(w, body, st, env, ex, fuel)
    case TryBlock(_, _, _, fin, dispatch) =>
      var r := HpTryRun(w, t, st, fuel);
      if r.c.Starves? then Result(Starves, r.st, env) else
      var f := RunSeq(w, fin, r.st, env, ex, fuel);
      if f.c.Falls? then RunDispatch(dispatch, HelperValue(r.c), r.env, f.st, f.env) else f
  }

  /** hp_try_run: the body helper and then, when it throws, the catch helper with the exception.
      A throw out of the catch helper comes back as the result, like an exception without handler. */
  function HpTryRun(w: World, t: Code, st: Store, fuel: nat): Result
    requires t.TryBlock?
    decreases fuel, t, 0
  {
    var b := RunSeq(w, t.body, st, Env(0, Null), Null, fuel);
    if b.c.Throws? then RunSeq(w, t.handler, b.st, b.env, b.c.ex, fuel) else b
  }

  /** The value hp_try_run hands back: what the helper returned or what the handler threw. */
  function HelperValue(c: Exit): Value {
    match c
    case Returns(v) => v
    case Throws(x) => x
    case _ => Null
  }

  function RunSeq(w: World, ts: seq<Code>, st: Store, env: Env, ex: Value, fuel: nat): Result
    decreases fuel, ts, 0
  {
    if ts == [] then Result(Falls, st, env) else
    var r := Run(w, ts[0], st, env, ex, fuel);
    if r.c.Falls? then RunSeq(w, ts[1..], r.st, r.env, ex, fuel)
    else if r.c.Jumps? && Find(ts[1..], r.c.n) < |ts| - 1 then
      RunSeq(w, ts[Find(ts[1..], r.c.n) + 2..], r.st, r.env, ex, fuel)
    else r
  }

  function RunOp(w: World, op: Op, st: Store, env: Env, ex: Value): Result {
    match op
    case Evaluate(e) =>
      (match w.eval(e, st)
       case Val(_, st') => Result(Falls, st', env)
       case Raise(x, st') => Throwing(x, st', env))
    case Echo(e) =>
      (match w.eval(e, st)
       case Val(v, st') => Result(Falls, st'.(out := st'.out + [v]), env)
       case Raise(x, st') => Throwing(x, st', env))
    case Raising(e) =>
      (match w.eval(e, st)
       case Val(v, st') => Throwing(v, st', env)
       case Raise(x, st') => Throwing(x, st', env))
    case ReturnExpr(e) =>
      (match w.eval(e, st)
       case Val(v, st') => Result(Returns(v), st', env)
       case Raise(x, st') => Throwing(x, st', env))
    case ReturnVoid => Result(Returns(Null), st, env)
    case SaveReturn(e) =>
      (match w.eval(e, st)
       case Val(v, st') => Result(Returns(Null), st', Env(1, v))
       case Raise(x, st') => Throwing(x, st', env))
    case LeaveHelper(act) => Result(Returns(Null), st, env.(act := act))
    case BreakLoop => Result(Breaks, st, env)
    case ContinueLoop => Result(Continues, st, env)
    case Goto(n) => Result(Jumps(n), st, env)
    case Label(_) => Result(Falls, st, env)
    case BindEx(ty, v) => Result(Falls, st.(vars := st.vars[v := View(w, ty, ex, st)]), env)
    case ReturnEx => Result(Returns(ex), st, env)
    case ReturnNull => Result(Returns(Null), st, env)
  }

  function RunDispatch(ds: seq<Dispatch>, pending: Value, e: Env, st: Store, env: Env): Result {
    if ds == [] then Result(Falls, st, env) else
    var rest := RunDispatch(ds[1..], pending, e, st, env);
    match ds[0]
    case Rethrow => if pending != Null then Throwing(pending, st, env) else rest
    case Forward => if e.act != 0 then Result(Returns(Null), st, Env(e.act, e.ret)) else rest
    case OnReturn(valued) => if e.act == 1 then Result(Returns(if valued then e.ret else Null), st, env) else rest
    case OnBreak => if e.act == 2 then Result(Breaks, st, env) else rest
    case OnContinueGoto(n) => if e.act == 3 then Result(Jumps(n), st, env) else rest
    case OnContinue => if e.act == 3 then Result(Continues, st, env) else rest
  }

  function RunFor(w: World, cond: Option<ExprId>, body: seq<Code>, st: Store, env: Env, ex: Value, fuel: nat): Result
    decreases fuel, body, 1
  {
    if fuel == 0 then Result(Starves, st, env) else
    match Test(w, cond, st)
    case Raise(x, st') => Throwing(x, st', env)
    case Val(v, st') =>
      if !w.truthy(v) && cond.Some? then Result(Falls, st', env) else
      var r := RunSeq(w, body, st', env, ex, fuel);
      if r.c.Breaks? then Result(Falls, r.st, r.env)
      else if r.c.Falls? || r.c.Continues? then RunFor(w, cond, body, r.st, r.env, ex, fuel - 1)
      else r
  }

  function RunDo(w: World, body: seq<Code>, c: ExprId, st: Store, env: Env, ex: Value, fuel: nat): Result
    decreases fuel, body, 1
  {
    if fuel == 0 then Result(Starves, st, env) else
    var r := RunSeq(w, body, st, env, ex, fuel);
    if r.c.Breaks? then Result(Falls, r.st, r.env)
    else if r.c.Falls? || r.c.Continues? then
      match w.eval(c, r.st)
      case Raise(x, st') => Throwing(x, st', r.env)
      case Val(v, st') => if w.truthy(v) then RunDo(w, body, c, st', r.env, ex, fuel - 1) else Result(Falls, st', r.env)
    else r
  }

  function RunEach(w: World, at: Cursor, v: LoopVars, body: seq<Code>, st: Store, env: Env, ex: Value, fuel: nat): Result
    decreases fuel, body, 1
  {
    if fuel == 0 then Result(Starves, st, env) else
    match w.item(at, st)
    case None => Result(Falls, st, env)
    case Some(x) =>
      var r := RunSeq(w, body, BindItem(v, x, st), env, ex, fuel);
      if r.c.Breaks? then Result(Falls, r.st, r.env)
      else if r.c.Falls? || r.c.Continues? then RunEach(w, x.next, v, body, r.st, r.env, ex, fuel - 1)
      else r
  }

  // ----- Concatenated lists -----

  lemma {:induction false} FindAppend(a: seq<Code>, b: seq<Code>, n: nat)
    ensures Find(a + b, n) == if Find(a, n) < |a| then Find(a, n) else |a| + Find(b, n)
  {
    if a == [] {
      assert a + b == b;
    } else {
      assert (a + b)[1..] == a[1..] + b;
      FindAppend(a[1..], b, n);
    }
  }

  /** What stands after the first label n. */
  function After(ts: seq<Code>, n: nat): seq<Code>
    requires Find(ts, n) < |ts|
  {
    ts[Find(ts, n) + 1..]
  }

  /** How list b goes on after a list in front of it ended with r. */
  function Resume(w: World, r: Result, b: seq<Code>, ex: Value, fuel: nat): Result {
    if r.c.Falls? then RunSeq(w, b, r.st, r.env, ex, fuel)
    else if r.c.Jumps? && Find(b, r.c.n) < |b| then RunSeq(w, After(b, r.c.n), r.st, r.env, ex, fuel)
    else r
  }

  lemma {:induction false} RunFirst(w: World, t: Code, rest: seq<Code>, st: Store, env: Env, ex: Value, fuel: nat)
    ensures RunSeq(w, [t] + rest, st, env, ex, fuel) == Resume(w, Run(w, t, st, env, ex, fuel), rest, ex, fuel)
  {
    var ts := [t] + rest;
    assert ts[1..] == rest;
    var r := Run(w, t, st, env, ex, fuel);
    if r.c.Jumps? && Find(rest, r.c.n) < |rest| {
      assert ts[Find(rest, r.c.n) + 2..] == After(rest, r.c.n);
    }
  }

  lemma RunOne(w: World, t: Code, st: Store, env: Env, ex: Value, fuel: nat)
    ensures RunSeq(w, [t], st, env, ex, fuel) == Run(w, t, st, env, ex, fuel)
  {
    RunFirst(w, t, [], st, env, ex, fuel);
    assert [t] + [] == [t];
  }

  /** A list in two parts runs like its first part and then, from where that left off, its second. */
  lemma {:induction false} RunAppend(w: World, a: seq<Code>, b: seq<Code>, st: Store, env: Env, ex: Value, fuel: nat)
    ensures RunSeq(w, a + b, st, env, ex, fuel) == Resume(w, RunSeq(w, a, st, env, ex, fuel), b, ex, fuel)
    decreases |a|, 1
  {
    if a == [] {
      assert a + b == b;
    } else {
      assert a == [a[0]] + a[1..];
      assert a + b == [a[0]] + (a[1..] + b);
      RunFirst(w, a[0], a[1..], st, env, ex, fuel);
      RunFirst(w, a[0], a[1..] + b, st, env, ex, fuel);
      ResumeAppend(w, Run(w, a[0], st, env, ex, fuel), a[1..], b, ex, fuel);
    }
  }

  lemma {:induction false} ResumeAppend(w: World, r: Result, a: seq<Code>, b: seq<Code>, ex: Value, fuel: nat)
    ensures Resume(w, r, a + b, ex, fuel) == Resume(w, Resume(w, r, a, ex, fuel), b, ex, fuel)
    decreases |a| + 1, 0
  {
    if r.c.Falls? {
      RunAppend(w, a, b, r.st, r.env, ex, fuel);
    } else if r.c.Jumps? {
      AfterAppend(a, b, r.c.n);
      if Find(a, r.c.n) < |a| {
        RunAppend(w, After(a, r.c.n), b, r.st, r.env, ex, fuel);
      }
    }
  }

  lemma AfterAppend(a: seq<Code>, b: seq<Code>, n: nat)
    ensures Find(a + b, n) < |a + b| <==> Find(a, n) < |a| || Find(b, n) < |b|
    ensures Find(a, n) < |a| ==> After(a + b, n) == After(a, n) + b
    ensures Find(a, n) == |a| && Find(b, n) < |b| ==> After(a + b, n) == After(b, n)
  {
    FindAppend(a, b, n);
  }
}
