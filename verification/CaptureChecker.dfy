/** The checker's walk over scopes and closures, proved to capture exactly what the nesting demands. */
module CaptureChecker {
  import opened Basics
  import opened Capture

  // ----- What stays true while numbers are handed out -----

  lemma StillOk(env: Env, uid: nat, declSeq: map<nat, nat>, scopeSeq: nat, bodySeq: seq<nat>, uid': nat, declSeq': map<nat, nat>, scopeSeq': nat)
    requires EnvOk(env, uid, declSeq, scopeSeq, bodySeq) && uid <= uid' && scopeSeq <= scopeSeq'
    requires forall u :: u in declSeq && u < uid ==> u in declSeq' && declSeq'[u] == declSeq[u]
    ensures EnvOk(env, uid', declSeq', scopeSeq', bodySeq)
  {
    forall i | 0 <= i < |env| ensures VarsOk(env[i], uid', declSeq', scopeSeq', bodySeq) {
      assert VarsOk(env[i], uid, declSeq, scopeSeq, bodySeq);
    }
  }

  /** A closure opened now has everything declared so far outside it. */
  lemma OpenedOutside(env: Env, uid: nat, declSeq: map<nat, nat>, scopeSeq: nat, bodySeq: seq<nat>)
    requires EnvOk(env, uid, declSeq, scopeSeq, bodySeq)
    ensures EnvOk(env, uid, declSeq, scopeSeq + 1, bodySeq + [scopeSeq])
  {
    forall i | 0 <= i < |env| ensures VarsOk(env[i], uid, declSeq, scopeSeq + 1, bodySeq + [scopeSeq]) {
      assert VarsOk(env[i], uid, declSeq, scopeSeq, bodySeq);
    }
  }

  lemma OutsideOne(v: Sym, d: nat)
    ensures Outside({v}, d) == if v.home <= d then {v} else {}
  {
    assert v.home <= d ==> v in Outside({v}, d);
  }

  /** The checker's fields at some moment, other than the finished lists. */
  datatype Snapshot = Snapshot(env: Env, seqs: seq<nat>, scopeSeq: nat, uid: nat, declSeq: map<nat, nat>, bodySeq: seq<nat>, caps: seq<seq<Sym>>) {
    ghost predicate Ok() {
      && |env| == |seqs| && |env| > 0 && |bodySeq| == |caps| && EnvOk(env, uid, declSeq, scopeSeq, bodySeq)
      && forall d :: 0 <= d < |bodySeq| ==> bodySeq[d] <= seqs[|seqs| - 1]
    }
  }

  /** The numbers of the variables declared so far stay as they are. */
  ghost predicate Extends(was: Snapshot, uid: nat, declSeq: map<nat, nat>, scopeSeq: nat) {
    && was.uid <= uid && was.scopeSeq <= scopeSeq
    && forall u :: u in was.declSeq && u < was.uid ==> u in declSeq && declSeq[u] == was.declSeq[u]
  }

  /** A stretch of the walk: the numbers are kept, the scopes, the lists and the finished lists are as the
      meaning of what was walked over says. */
  ghost predicate Stepped(a: Snapshot, b: Snapshot, r: Outcome, lists: seq<seq<Sym>>) {
    && b.seqs == a.seqs && b.bodySeq == a.bodySeq && Extends(a, b.uid, b.declSeq, b.scopeSeq)
    && b.env == r.env && b.uid == r.uid && Grown(a.caps, b.caps, r.seen) && Lists(lists, r.captures)
  }

  lemma SteppedTwice(a: Snapshot, b: Snapshot, c: Snapshot, r: Outcome, r': Outcome, lists: seq<seq<Sym>>, lists': seq<seq<Sym>>)
    requires Stepped(a, b, r, lists) && Stepped(b, c, r', lists')
    ensures Stepped(a, c, Outcome(r'.env, r'.uid, r.seen + r'.seen, r.captures + r'.captures), lists + lists')
  {
    GrownTwice(a.caps, b.caps, c.caps, r.seen, r'.seen);
    ListsAppend(lists, r.captures, lists', r'.captures);
  }

  class Checker {
    var env: Env
    var seqs: seq<nat>
    var scopeSeq: nat
    var uid: nat
    var declSeq: map<nat, nat>
    var bodySeq: seq<nat>
    var caps: seq<seq<Sym>>
    var done: seq<seq<Sym>>

    ghost predicate Valid()
      reads this
    {
      && |env| == |seqs| && |env| > 0 && |bodySeq| == |caps| <= MAX_CLOSURES
      && (forall d :: 0 <= d < |bodySeq| ==> bodySeq[d] <= seqs[|seqs| - 1])
      && (forall i :: 0 <= i < |seqs| ==> seqs[i] < scopeSeq)
      && EnvOk(env, uid, declSeq, scopeSeq, bodySeq)
      && (forall d :: 0 <= d < |caps| ==> NoDup(caps[d]))
    }

    /** The numbers of the variables declared so far, and the closures and scopes open, stay as they are. */
    twostate predicate NumbersKept()
      reads this
    {
      KeptSince(old(Snap()))
    }

    ghost function Snap(): Snapshot
      reads this
    {
      Snapshot(env, seqs, scopeSeq, uid, declSeq, bodySeq, caps)
    }

    /** The same, from an earlier state on. */
    ghost predicate KeptSince(was: Snapshot)
      reads this
    {
      seqs == was.seqs && bodySeq == was.bodySeq && Extends(was, uid, declSeq, scopeSeq)
    }

    /** One scope and one closure deeper than an earlier state. */
    ghost predicate Opened(was: Snapshot)
      reads this
    {
      && was.Ok() && Extends(was, uid, declSeq, scopeSeq) && |caps| == |was.caps| + 1
      && |env| == |was.env| + 1 && env[..|was.env|] == was.env && |seqs| == |was.seqs| + 1 && seqs[..|was.seqs|] == was.seqs
      && |bodySeq| == |was.bodySeq| + 1 && bodySeq[..|was.bodySeq|] == was.bodySeq
    }

    constructor ()
      ensures Valid() && env == [[]] && uid == 0 && bodySeq == [] && caps == [] && done == []
    {
      env, seqs, scopeSeq, uid, declSeq := [[]], [0], 1, 0, map[];
      bodySeq, caps, done := [], [], [];
    }

    method Check(n: Node) returns (ghost lists: seq<seq<Sym>>)
      requires Valid()
      modifies this
      ensures Valid() && done == old(done) + lists
      ensures Stepped(old(Snap()), Snap(), Meaning(n, old(env), old(uid), |old(bodySeq)|), lists)
      decreases n, 1
    {
      match n
      case Declare(x) =>
        lists := [];
        GrownNothing(caps);
        DeclareVar(x);
      case Read(x) =>
        lists := [];
        FoundIsOk(env, x, uid, declSeq, scopeSeq, bodySeq);
        var v := Find(env, x);
        if v.Some? { NoteRead(v.value); } else { GrownNothing(caps); }
      case Block(body) =>
        lists := CheckBlock(body);
      case Closure(ps, us, body) =>
        if |caps| >= MAX_CLOSURES {
          lists := [];
          GrownNothing(caps);
        } else {
          lists := CheckClosure(ps, us, body);
        }
    }

    method CheckAll(ns: seq<Node>) returns (ghost lists: seq<seq<Sym>>)
      requires Valid()
      modifies this
      ensures Valid() && done == old(done) + lists
      ensures Stepped(old(Snap()), Snap(), MeaningAll(ns, old(env), old(uid), |old(bodySeq)|), lists)
      decreases ns, 0
    {
      lists := [];
      if ns == [] {
        GrownNothing(caps);
        return;
      }
      ghost var was, a := Snap(), Meaning(ns[0], env, uid, |bodySeq|);
      ghost var b := MeaningAll(ns[1..], a.env, a.uid, |bodySeq|);
      ghost var first := Check(ns[0]);
      ghost var mid := Snap();
      ghost var more := CheckAll(ns[1..]);
      lists := first + more;
      SteppedTwice(was, mid, Snap(), a, b, first, more);
    }

    method DeclareVar(x: string)
      requires Valid()
      modifies this`env, this`uid, this`declSeq
      ensures Valid() && NumbersKept()
      ensures var r := Meaning(Declare(x), old(env), old(uid), |bodySeq|); env == r.env && uid == r.uid
    {
      var top := env[|env| - 1];
      if |top| >= MAX_SCOPE { return; }
      ghost var declSeq0 := declSeq;
      var v := Sym(x, uid, |bodySeq|);
      declSeq := declSeq[uid := seqs[|seqs| - 1]];
      StillOk(env, uid, declSeq0, scopeSeq, bodySeq, uid + 1, declSeq, scopeSeq);
      uid := uid + 1;
      assert SymOk(v, uid, declSeq, scopeSeq, bodySeq);
      assert VarsOk(top, uid, declSeq, scopeSeq, bodySeq);
      env := env[..|env| - 1] + [top + [v]];
    }

    /** A variable is read: the innermost closure notes it if it was declared before the closure's scope,
        then the closures around it, up to the one it was declared in. */
    method NoteRead(v: Sym)
      requires Valid() && SymOk(v, uid, declSeq, scopeSeq, bodySeq)
      modifies this`caps
      ensures Valid() && Grown(old(caps), caps, {v})
    {
      var d := |caps| - 1;
      while d >= 0
        invariant -1 <= d < |caps| == |bodySeq|
        invariant forall e :: 0 <= e <= d ==> caps[e] == old(caps)[e]
        invariant forall e :: d < e < |caps| ==> v.home <= e && NoDup(caps[e]) && Elements(caps[e]) == Elements(old(caps)[e]) + {v}
        decreases d
      {
        if declSeq[v.uid] >= bodySeq[d] { break; }
        NoteCapture(d, v);
        d := d - 1;
      }
      forall e | 0 <= e < |caps| ensures GrownAt(old(caps)[e], caps[e], {v}, e) {
        if e <= d {
          assert v.home > d;
        }
        OutsideOne(v, e);
      }
      GrownEverywhere(old(caps), caps, {v});
    }

    /** A closure's list gets a variable it does not hold yet. */
    method NoteCapture(d: nat, v: Sym)
      requires d < |caps| && NoDup(caps[d])
      modifies this`caps
      ensures |caps| == |old(caps)| && forall e :: 0 <= e < |caps| && e != d ==> caps[e] == old(caps)[e]
      ensures NoDup(caps[d]) && Elements(caps[d]) == Elements(old(caps)[d]) + {v}
    {
      var list := caps[d];
      for i := 0 to |list|
        invariant v !in list[..i]
      {
        if list[i] == v {
          assert Elements(list) == Elements(list) + {v};
          return;
        }
      }
      assert list[..|list|] == list;
      caps := caps[d := list + [v]];
      assert Elements(list + [v]) == Elements(list) + {v};
    }

    method CheckBlock(body: seq<Node>) returns (ghost lists: seq<seq<Sym>>)
      requires Valid()
      modifies this
      ensures Valid() && done == old(done) + lists
      ensures Stepped(old(Snap()), Snap(), Meaning(Block(body), old(env), old(uid), |old(bodySeq)|), lists)
      decreases body, 1
    {
      EnterScope();
      ghost var r, env1, seqs1 := MeaningAll(body, env, uid, |bodySeq|), env, seqs;
      MeaningOfBlock(body, old(env), old(uid), |old(bodySeq)|);
      lists := CheckAll(body);
      assert env[..|env| - 1] == env1[..|env1| - 1] == old(env);
      assert seqs[..|seqs| - 1] == seqs1[..|seqs1| - 1] == old(seqs);
      LeaveScope(old(uid), old(declSeq), old(scopeSeq));
    }

    method EnterScope()
      requires Valid()
      modifies this`env, this`seqs, this`scopeSeq
      ensures Valid() && env == old(env) + [[]] && seqs == old(seqs) + [old(scopeSeq)] && scopeSeq == old(scopeSeq) + 1
    {
      StillOk(env, uid, declSeq, scopeSeq, bodySeq, uid, declSeq, scopeSeq + 1);
      env := env + [[]];
      seqs := seqs + [scopeSeq];
      scopeSeq := scopeSeq + 1;
    }

    /** Back to the scopes of an earlier state. */
    method LeaveScope(ghost uid0: nat, ghost declSeq0: map<nat, nat>, ghost scopeSeq0: nat)
      requires Valid() && |env| > 1 && EnvOk(env[..|env| - 1], uid0, declSeq0, scopeSeq0, bodySeq)
      requires uid0 <= uid && scopeSeq0 <= scopeSeq && forall u :: u in declSeq0 && u < uid0 ==> u in declSeq && declSeq[u] == declSeq0[u]
      requires forall d :: 0 <= d < |bodySeq| ==> bodySeq[d] <= seqs[|seqs| - 2]
      modifies this`env, this`seqs
      ensures Valid() && env == old(env)[..|old(env)| - 1] && seqs == old(seqs)[..|old(seqs)| - 1]
    {
      StillOk(env[..|env| - 1], uid0, declSeq0, scopeSeq0, bodySeq, uid, declSeq, scopeSeq);
      env := env[..|env| - 1];
      seqs := seqs[..|seqs| - 1];
    }

    method CheckClosure(ps: seq<string>, us: seq<string>, body: seq<Node>) returns (ghost lists: seq<seq<Sym>>)
      requires Valid() && |bodySeq| < MAX_CLOSURES
      modifies this
      ensures Valid() && done == old(done) + lists
      ensures Stepped(old(Snap()), Snap(), Meaning(Closure(ps, us, body), old(env), old(uid), |old(bodySeq)|), lists)
      decreases body, 2
    {
      ghost var was, used := Snap(), UsedSyms(us, env);
      OpenClosure(ps, us);
      MeaningOfClosure(ps, us, body, was.env, was.uid, |was.caps|);
      lists := CheckBody(body, was, used);
    }

    /** The body of a closure that has just been opened, and back to where it was opened. */
    method CheckBody(body: seq<Node>, ghost was: Snapshot, ghost used: set<Sym>) returns (ghost lists: seq<seq<Sym>>)
      requires Valid() && Opened(was) && caps[..|caps| - 1] == was.caps && Elements(caps[|caps| - 1]) == used
      modifies this
      ensures Valid() && KeptSince(was) && done == old(done) + lists
      ensures var r := MeaningAll(body, old(env), old(uid), |old(bodySeq)|);
              && env == was.env && uid == r.uid && Grown(was.caps, caps, r.seen)
              && Lists(lists, r.captures + [used + Outside(r.seen, |was.caps|)])
      decreases body, 1
    {
      var d := |caps| - 1;
      ghost var caps1, r := caps, MeaningAll(body, env, uid, |bodySeq|);
      ghost var inner := CheckAll(body);
      ClosureLists(was.caps, caps1, caps, used, r.seen);
      ListsAppend(inner, r.captures, [caps[d]], [used + Outside(r.seen, d)]);
      done := done + [caps[d]];
      lists := inner + [caps[d]];
      Close(was);
    }

    /** The closure's scope with its parameters and its use list, which is noted as captured. */
    method OpenClosure(ps: seq<string>, us: seq<string>)
      requires Valid() && |bodySeq| < MAX_CLOSURES
      modifies this`env, this`seqs, this`scopeSeq, this`bodySeq, this`caps, this`uid, this`declSeq
      ensures Valid() && Opened(old(Snap())) && env == old(env) + [Uses(us, old(env), Params(ps, [], old(uid), |old(bodySeq)| + 1))]
      ensures uid == ParamUids(ps, 0, old(uid)) && |bodySeq| == |old(bodySeq)| + 1
      ensures caps[..|caps| - 1] == old(caps) && Elements(caps[|caps| - 1]) == UsedSyms(us, old(env))
    {
      Open();
      OpenParams(ps, old(env));
      OpenUses(us, old(env), old(caps));
    }

    /** Back to the scopes and the closures of an earlier state. */
    method Close(ghost was: Snapshot)
      requires Valid() && Opened(was)
      modifies this`env, this`seqs, this`bodySeq, this`caps
      ensures Valid() && KeptSince(was) && env == was.env && caps == old(caps)[..|old(caps)| - 1]
    {
      StillOk(was.env, was.uid, was.declSeq, was.scopeSeq, was.bodySeq, uid, declSeq, scopeSeq);
      caps := caps[..|caps| - 1];
      env, seqs, bodySeq := env[..|env| - 1], seqs[..|seqs| - 1], bodySeq[..|bodySeq| - 1];
    }

    /** A closure context, with the scope of its body. */
    method Open()
      requires Valid() && |bodySeq| < MAX_CLOSURES
      modifies this`env, this`seqs, this`scopeSeq, this`bodySeq, this`caps
      ensures Valid() && env == old(env) + [[]] && seqs == old(seqs) + [old(scopeSeq)] && scopeSeq == old(scopeSeq) + 1
      ensures bodySeq == old(bodySeq) + [old(scopeSeq)] && caps == old(caps) + [[]]
      ensures EnvOk(old(env), uid, declSeq, scopeSeq, bodySeq)
    {
      OpenedOutside(env, uid, declSeq, scopeSeq, bodySeq);
      bodySeq, caps := bodySeq + [scopeSeq], caps + [[]];
      env, seqs := env + [[]], seqs + [scopeSeq];
      scopeSeq := scopeSeq + 1;
    }

    method OpenParams(ps: seq<string>, ghost env0: Env)
      requires Valid() && env == env0 + [[]] && EnvOk(env0, uid, declSeq, scopeSeq, bodySeq)
      modifies this`env, this`uid, this`declSeq
      ensures Valid() && NumbersKept() && EnvOk(env0, uid, declSeq, scopeSeq, bodySeq)
      ensures env == env0 + [Params(ps, [], old(uid), |bodySeq|)] && uid == ParamUids(ps, 0, old(uid))
    {
      ghost var vars, uid0, declSeq0 := [], uid, declSeq;
      var rest := ps;
      while rest != []
        invariant Valid() && NumbersKept() && env == env0 + [vars]
        invariant Params(ps, [], uid0, |bodySeq|) == Params(rest, vars, uid, |bodySeq|)
        invariant ParamUids(ps, 0, uid0) == ParamUids(rest, |vars|, uid)
        decreases |rest|
      {
        ghost var before := env;
        assert before[|before| - 1] == vars && before[..|before| - 1] == env0;
        ghost var uid1 := uid;
        DeclareVar(rest[0]);
        vars := AddVar(vars, Sym(rest[0], uid1, |bodySeq|));
        rest := rest[1..];
      }
      StillOk(env0, uid0, declSeq0, scopeSeq, bodySeq, uid, declSeq, scopeSeq);
    }

    method OpenUses(us: seq<string>, ghost env0: Env, ghost caps0: seq<seq<Sym>>)
      requires Valid() && |env| == |env0| + 1 && env[..|env0|] == env0 && env0 != []
      requires EnvOk(env0, uid, declSeq, scopeSeq, bodySeq) && caps == caps0 + [[]]
      modifies this`env, this`caps
      ensures Valid() && env == env0 + [Uses(us, env0, old(env)[|env0|])]
      ensures |caps| == |caps0| + 1 && caps[..|caps0|] == caps0 && Elements(caps[|caps0|]) == UsedSyms(us, env0)
    {
      ghost var vars0, used := env[|env0|], UsedSyms(us, env0);
      ghost var vars := vars0;
      var outer := env[..|env| - 1];
      var rest := us;
      assert env == env0 + [vars];
      while rest != []
        invariant Valid() && env == env0 + [vars] && outer == env0
        invariant |caps| == |caps0| + 1 && caps[..|caps0|] == caps0
        invariant Uses(us, env0, vars0) == Uses(rest, env0, vars)
        invariant used == Elements(caps[|caps0|]) + UsedSyms(rest, env0)
        decreases |rest|
      {
        FoundIsOk(env0, rest[0], uid, declSeq, scopeSeq, bodySeq);
        var v := Find(outer, rest[0]);
        if v.Some? {
          UseOne(v.value);
          vars := AddVar(vars, v.value);
        }
        rest := rest[1..];
      }
    }

    /** A variable of the use list joins the closure's scope, if there is room, and its captures. */
    method UseOne(v: Sym)
      requires Valid() && |caps| > 0 && SymOk(v, uid, declSeq, scopeSeq, bodySeq)
      modifies this`env, this`caps
      ensures Valid() && env == old(env)[..|old(env)| - 1] + [AddVar(old(env)[|old(env)| - 1], v)]
      ensures |caps| == |old(caps)| && caps[..|caps| - 1] == old(caps)[..|caps| - 1]
      ensures Elements(caps[|caps| - 1]) == Elements(old(caps)[|caps| - 1]) + {v}
    {
      var top := env[|env| - 1];
      assert VarsOk(top, uid, declSeq, scopeSeq, bodySeq);
      assert VarsOk(AddVar(top, v), uid, declSeq, scopeSeq, bodySeq);
      env := env[..|env| - 1] + [AddVar(top, v)];
      NoteCapture(|caps| - 1, v);
    }
  }

  lemma MeaningOfBlock(body: seq<Node>, env: Env, uid: nat, depth: nat)
    requires env != []
    ensures var r := MeaningAll(body, env + [[]], uid, depth);
            Meaning(Block(body), env, uid, depth) == Outcome(env, r.uid, r.seen, r.captures)
  {
  }

  lemma MeaningOfClosure(ps: seq<string>, us: seq<string>, body: seq<Node>, env: Env, uid: nat, depth: nat)
    requires env != [] && depth < MAX_CLOSURES
    ensures var r := MeaningAll(body, env + [Uses(us, env, Params(ps, [], uid, depth + 1))], ParamUids(ps, 0, uid), depth + 1);
            Meaning(Closure(ps, us, body), env, uid, depth) == Outcome(env, r.uid, r.seen, r.captures + [UsedSyms(us, env) + Outside(r.seen, depth)])
  {
  }

  lemma ClosureLists(caps0: seq<seq<Sym>>, caps1: seq<seq<Sym>>, caps2: seq<seq<Sym>>, used: set<Sym>, seen: set<Sym>)
    requires |caps1| == |caps0| + 1 && caps1[..|caps0|] == caps0 && Elements(caps1[|caps0|]) == used
    requires Grown(caps1, caps2, seen)
    ensures Grown(caps0, caps2[..|caps0|], seen)
    ensures Lists([caps2[|caps0|]], [used + Outside(seen, |caps0|)])
  {
  }

  /** For every program: the lists the checker leaves, closure by closure, hold no variable twice and hold
      exactly the use list and the variables read in the closure or deeper and declared outside it. */
  method CheckProgram(ns: seq<Node>) returns (captures: seq<seq<Sym>>)
    ensures Lists(captures, MeaningAll(ns, [[]], 0, 0).captures)
  {
    var c := new Checker();
    ghost var lists := c.CheckAll(ns);
    assert [] + lists == lists;
    captures := c.done;
  }
}
