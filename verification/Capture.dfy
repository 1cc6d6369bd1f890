/** Closure captures: what a closure must capture, by where variables are declared, and the checker that
    finds it by comparing scope sequence numbers. */
module Capture {
  import opened Basics

  const MAX_SCOPE: nat := 64
  const MAX_CLOSURES: nat := 32

  /** The parts of a program that matter here. */
  datatype Node =
    | Declare(x: string)
    | Read(x: string)
    | Block(body: seq<Node>)
    | Closure(params: seq<string>, uses: seq<string>, body: seq<Node>)

  /** A declared variable; home is the number of closures around its declaration. */
  datatype Sym = Sym(name: string, uid: nat, home: nat)

  /** Scopes, outermost first; in each the variables in the order of their declaration. */
  type Env = seq<seq<Sym>>

  // ----- What is captured, by the nesting of declarations -----

  function FindIn(vars: seq<Sym>, x: string): Option<Sym> {
    if vars == [] then None
    else if vars[|vars| - 1].name == x then Some(vars[|vars| - 1])
    else FindIn(vars[..|vars| - 1], x)
  }

  function Find(env: Env, x: string): Option<Sym> {
    if env == [] then None
    else if FindIn(env[|env| - 1], x).Some? then FindIn(env[|env| - 1], x)
    else Find(env[..|env| - 1], x)
  }

  /** The outcome of a piece of program: the scopes, the next variable's number, the variables read in it
      at any depth, and for each closure in it, innermost and first ones first, what it captures. */
  datatype Outcome = Outcome(env: Env, uid: nat, seen: set<Sym>, captures: seq<set<Sym>>)

  /** One more variable in a scope that has room. */
  function AddVar(vars: seq<Sym>, v: Sym): seq<Sym> { if |vars| < MAX_SCOPE then vars + [v] else vars }

  function Params(ps: seq<string>, vars: seq<Sym>, uid: nat, home: nat): seq<Sym> {
    if ps == [] then vars else Params(ps[1..], AddVar(vars, Sym(ps[0], uid, home)), if |vars| < MAX_SCOPE then uid + 1 else uid, home)
  }

  function ParamUids(ps: seq<string>, n: nat, uid: nat): nat {
    if ps == [] || n >= MAX_SCOPE then uid else ParamUids(ps[1..], n + 1, uid + 1)
  }

  /** The variables of a use list, which stay what they are outside. */
  function Uses(us: seq<string>, env: Env, vars: seq<Sym>): seq<Sym> {
    if us == [] then vars
    else match Find(env, us[0])
         case None => Uses(us[1..], env, vars)
         case Some(v) => Uses(us[1..], env, AddVar(vars, v))
  }

  function UsedSyms(us: seq<string>, env: Env): set<Sym> {
    if us == [] then {}
    else match Find(env, us[0])
         case None => UsedSyms(us[1..], env)
         case Some(v) => {v} + UsedSyms(us[1..], env)
  }

  /** The variables of a set that are declared outside the d-th closure. */
  function Outside(vs: set<Sym>, d: nat): set<Sym> { set v | v in vs && v.home <= d }

  function Meaning(n: Node, env: Env, uid: nat, depth: nat): (r: Outcome)
    requires env != []
    ensures |r.env| == |env| && r.env[..|env| - 1] == env[..|env| - 1]
    decreases n, 1
  {
    match n
    case Declare(x) =>
      var top := env[|env| - 1];
      if |top| < MAX_SCOPE then Outcome(env[..|env| - 1] + [top + [Sym(x, uid, depth)]], uid + 1, {}, [])
      else Outcome(env, uid, {}, [])
    case Read(x) =>
      Outcome(env, uid, if Find(env, x).Some? then {Find(env, x).value} else {}, [])
    case Block(body) =>
      var r := MeaningAll(body, env + [[]], uid, depth);
      Outcome(env, r.uid, r.seen, r.captures)
    case Closure(ps, us, body) =>
      if depth >= MAX_CLOSURES then Outcome(env, uid, {}, []) else
      var vars := Uses(us, env, Params(ps, [], uid, depth + 1));
      var r := MeaningAll(body, env + [vars], ParamUids(ps, 0, uid), depth + 1);
      Outcome(env, r.uid, r.seen, r.captures + [UsedSyms(us, env) + Outside(r.seen, depth)])
  }

  function MeaningAll(ns: seq<Node>, env: Env, uid: nat, depth: nat): (r: Outcome)
    requires env != []
    ensures |r.env| == |env| && r.env[..|env| - 1] == env[..|env| - 1]
    decreases ns, 0
  {
    if ns == [] then Outcome(env, uid, {}, []) else
    var a := Meaning(ns[0], env, uid, depth);
    var b := MeaningAll(ns[1..], a.env, a.uid, depth);
    Outcome(b.env, b.uid, a.seen + b.seen, a.captures + b.captures)
  }

  // ----- The checker -----

  function Elements(s: seq<Sym>): set<Sym> { set v | v in s }

  predicate NoDup(s: seq<Sym>) { forall i, j :: 0 <= i < j < |s| ==> s[i] != s[j] }

  /** A sequence number tells on which side of each closure's boundary a variable was declared. */
  predicate Sided(v: Sym, s: nat, bodySeq: seq<nat>) {
    v.home <= |bodySeq| && forall d :: 0 <= d < |bodySeq| ==> (s < bodySeq[d] <==> v.home <= d)
  }

  predicate SymOk(v: Sym, uid: nat, declSeq: map<nat, nat>, scopeSeq: nat, bodySeq: seq<nat>) {
    v.uid < uid && v.uid in declSeq && declSeq[v.uid] < scopeSeq && Sided(v, declSeq[v.uid], bodySeq)
  }

  predicate VarsOk(vars: seq<Sym>, uid: nat, declSeq: map<nat, nat>, scopeSeq: nat, bodySeq: seq<nat>) {
    forall i :: 0 <= i < |vars| ==> SymOk(vars[i], uid, declSeq, scopeSeq, bodySeq)
  }

  predicate EnvOk(env: Env, uid: nat, declSeq: map<nat, nat>, scopeSeq: nat, bodySeq: seq<nat>) {
    forall i :: 0 <= i < |env| ==> VarsOk(env[i], uid, declSeq, scopeSeq, bodySeq)
  }

  /** Each closure's list has grown by the variables read that are declared outside it. */
  predicate Grown(before: seq<seq<Sym>>, after: seq<seq<Sym>>, seen: set<Sym>)
    decreases |after|
  {
    && |after| == |before|
    && (after == [] ||
        var d := |after| - 1;
        GrownAt(before[d], after[d], seen, d) && Grown(before[..d], after[..d], seen))
  }

  predicate GrownAt(before: seq<Sym>, after: seq<Sym>, seen: set<Sym>, d: nat) {
    NoDup(after) && Elements(after) == Elements(before) + Outside(seen, d)
  }

  /** The finished lists are duplicate-free and hold exactly the given sets. */
  predicate Lists(lists: seq<seq<Sym>>, sets: seq<set<Sym>>) {
    |lists| == |sets| && forall k :: 0 <= k < |lists| ==> NoDup(lists[k]) && Elements(lists[k]) == sets[k]
  }

  // ----- Facts about the parts -----

  lemma OutsideUnion(a: set<Sym>, b: set<Sym>, d: nat)
    ensures Outside(a + b, d) == Outside(a, d) + Outside(b, d)
  {
  }

  lemma {:induction false} GrownTwice(l0: seq<seq<Sym>>, l1: seq<seq<Sym>>, l2: seq<seq<Sym>>, a: set<Sym>, b: set<Sym>)
    requires Grown(l0, l1, a) && Grown(l1, l2, b)
    ensures Grown(l0, l2, a + b)
    decreases |l2|
  {
    if l2 != [] {
      var d := |l2| - 1;
      OutsideUnion(a, b, d);
      GrownTwice(l0[..d], l1[..d], l2[..d], a, b);
    }
  }

  lemma {:induction false} GrownNothing(l: seq<seq<Sym>>)
    requires forall d :: 0 <= d < |l| ==> NoDup(l[d])
    ensures Grown(l, l, {})
    decreases |l|
  {
    if l != [] {
      assert Outside({}, |l| - 1) == {};
      GrownNothing(l[..|l| - 1]);
    }
  }

  lemma {:induction false} GrownEverywhere(before: seq<seq<Sym>>, after: seq<seq<Sym>>, seen: set<Sym>)
    requires |after| == |before| && forall d :: 0 <= d < |after| ==> GrownAt(before[d], after[d], seen, d)
    ensures Grown(before, after, seen)
    decreases |after|
  {
    if after != [] { GrownEverywhere(before[..|after| - 1], after[..|after| - 1], seen); }
  }

  lemma ListsAppend(a: seq<seq<Sym>>, sa: seq<set<Sym>>, b: seq<seq<Sym>>, sb: seq<set<Sym>>)
    requires Lists(a, sa) && Lists(b, sb)
    ensures Lists(a + b, sa + sb)
  {
  }

  /** What is found is one of the variables. */
  lemma {:induction false} FoundInIsThere(vars: seq<Sym>, x: string)
    ensures FindIn(vars, x).Some? ==> FindIn(vars, x).value in vars
    decreases |vars|
  {
    if vars != [] && vars[|vars| - 1].name != x { FoundInIsThere(vars[..|vars| - 1], x); }
  }

  lemma {:induction false} FoundIsOk(env: Env, x: string, uid: nat, declSeq: map<nat, nat>, scopeSeq: nat, bodySeq: seq<nat>)
    requires EnvOk(env, uid, declSeq, scopeSeq, bodySeq)
    ensures Find(env, x).Some? ==> SymOk(Find(env, x).value, uid, declSeq, scopeSeq, bodySeq)
    decreases |env|
  {
    if env != [] {
      var top := env[|env| - 1];
      FoundInIsThere(top, x);
      assert VarsOk(top, uid, declSeq, scopeSeq, bodySeq);
      if FindIn(top, x).None? { FoundIsOk(env[..|env| - 1], x, uid, declSeq, scopeSeq, bodySeq); }
    }
  }

  // ----- What reaches the closure around -----

  /** The variables in the use lists of the closures inside a piece of program. */
  function Used(n: Node, env: Env, uid: nat, depth: nat): set<Sym>
    requires env != []
    decreases n, 1
  {
    match n
    case Declare(_) => {}
    case Read(_) => {}
    case Block(body) => UsedAll(body, env + [[]], uid, depth)
    case Closure(ps, us, body) =>
      if depth >= MAX_CLOSURES then {} else
      UsedSyms(us, env) + UsedAll(body, env + [Uses(us, env, Params(ps, [], uid, depth + 1))], ParamUids(ps, 0, uid), depth + 1)
  }

  function UsedAll(ns: seq<Node>, env: Env, uid: nat, depth: nat): set<Sym>
    requires env != []
    decreases ns, 0
  {
    if ns == [] then {} else
    var a := Meaning(ns[0], env, uid, depth);
    Used(ns[0], env, uid, depth) + UsedAll(ns[1..], a.env, a.uid, depth)
  }

  function Union(sets: seq<set<Sym>>): set<Sym> { if sets == [] then {} else sets[0] + Union(sets[1..]) }

  lemma {:induction false} UnionAppend(a: seq<set<Sym>>, b: seq<set<Sym>>)
    ensures Union(a + b) == Union(a) + Union(b)
  {
    if a == [] {
      assert a + b == b;
    } else {
      assert (a + b)[1..] == a[1..] + b;
      UnionAppend(a[1..], b);
    }
  }

  /** What closures capture is used by one of them or read. */
  lemma {:induction false} CapturedIsUsedOrSeen(n: Node, env: Env, uid: nat, depth: nat)
    requires env != []
    ensures var r := Meaning(n, env, uid, depth);
            Used(n, env, uid, depth) <= Union(r.captures) <= Used(n, env, uid, depth) + r.seen
    decreases n, 1
  {
    match n
    case Block(body) => AllCapturedIsUsedOrSeen(body, env + [[]], uid, depth);
    case Closure(ps, us, body) =>
      if depth < MAX_CLOSURES {
        var inner := env + [Uses(us, env, Params(ps, [], uid, depth + 1))];
        AllCapturedIsUsedOrSeen(body, inner, ParamUids(ps, 0, uid), depth + 1);
        var r := MeaningAll(body, inner, ParamUids(ps, 0, uid), depth + 1);
        var own := UsedSyms(us, env) + Outside(r.seen, depth);
        UnionAppend(r.captures, [own]);
        assert Union([own]) == own;
      }
    case _ =>
  }

  lemma {:induction false} AllCapturedIsUsedOrSeen(ns: seq<Node>, env: Env, uid: nat, depth: nat)
    requires env != []
    ensures var r := MeaningAll(ns, env, uid, depth);
            UsedAll(ns, env, uid, depth) <= Union(r.captures) <= UsedAll(ns, env, uid, depth) + r.seen
    decreases ns, 0
  {
    if ns != [] {
      var a := Meaning(ns[0], env, uid, depth);
      var b := MeaningAll(ns[1..], a.env, a.uid, depth);
      CapturedIsUsedOrSeen(ns[0], env, uid, depth);
      AllCapturedIsUsedOrSeen(ns[1..], a.env, a.uid, depth);
      UnionAppend(a.captures, b.captures);
    }
  }

  /** What the closures inside a closure capture from outside it and it does not capture itself is exactly
      what their use lists take from there and it does not capture. So all they capture reaches it if
      and only if their use lists name nothing from outside that it neither uses nor reads. */
  lemma PassedOnIff(ps: seq<string>, us: seq<string>, body: seq<Node>, env: Env, uid: nat, depth: nat)
    requires env != [] && depth < MAX_CLOSURES
    ensures var inner := env + [Uses(us, env, Params(ps, [], uid, depth + 1))];
            var r := MeaningAll(body, inner, ParamUids(ps, 0, uid), depth + 1);
            var own := UsedSyms(us, env) + Outside(r.seen, depth);
            var used := Outside(UsedAll(body, inner, ParamUids(ps, 0, uid), depth + 1), depth);
            && Meaning(Closure(ps, us, body), env, uid, depth).captures == r.captures + [own]
            && Outside(Union(r.captures), depth) - own == used - own
            && (Outside(Union(r.captures), depth) <= own <==> used <= own)
  {
    var inner := env + [Uses(us, env, Params(ps, [], uid, depth + 1))];
    AllCapturedIsUsedOrSeen(body, inner, ParamUids(ps, 0, uid), depth + 1);
  }

  /** A closure's use list is its own: what a closure inside it uses without reading is not passed on,
      although it has to come through the closure around it. */
  lemma UseIsNotPassedOn(x: string)
    ensures MeaningAll([Declare(x), Closure([], [], [Closure([], [x], [])])], [[]], 0, 0).captures == [{Sym(x, 0, 0)}, {}]
  {
    var v := Sym(x, 0, 0);
    var outer := Closure([], [], [Closure([], [x], [])]);
    assert [Declare(x), outer][1..] == [outer] && [outer][1..] == [];
    var none: Env := [[]];
    assert none[0] + [v] == [v] && none[..0] == [];
    assert none[..0] + [[v]] == [[v]];
    assert Meaning(Declare(x), none, 0, 0) == Outcome([[v]], 1, {}, []);
    OuterCaptures(v);
    assert MeaningAll([outer], [[v]], 1, 0).captures == [{v}, {}];
  }

  lemma OuterCaptures(v: Sym)
    ensures Meaning(Closure([], [], [Closure([], [v.name], [])]), [[v]], 1, 0) == Outcome([[v]], 1, {}, [{v}, {}])
  {
    var inner := Closure([], [v.name], []);
    InnerCaptures(v);
    assert [[v]] + [[]] == [[v], []] && [inner][1..] == [];
    assert MeaningAll([inner], [[v], []], 1, 1) == Outcome([[v], []], 1, {}, [{v}]);
    assert UsedSyms([], [[v]]) + Outside({}, 0) == {};
  }

  lemma InnerCaptures(v: Sym)
    ensures Meaning(Closure([], [v.name], []), [[v], []], 1, 1) == Outcome([[v], []], 1, {}, [{v}])
  {
    var env := [[v], []];
    assert env[..1] == [[v]] && [v.name][1..] == [];
    assert FindIn([], v.name) == None && FindIn([v], v.name) == Some(v);
    assert Find([[v]], v.name) == Some(v);
    assert Find(env, v.name) == Some(v);
    assert UsedSyms([v.name], env) + Outside({}, 1) == {v};
  }

  // ----- Which declaration a name means -----

  /** Nothing of that name stands in a later scope, or later in the same one. */
  predicate LastNamed(env: Env, x: string, i: nat, j: nat) {
    && i < |env| && j < |env[i]| && env[i][j].name == x
    && (forall l :: j < l < |env[i]| ==> env[i][l].name != x)
    && (forall k, l :: i < k < |env| && 0 <= l < |env[k]| ==> env[k][l].name != x)
  }

  predicate Unnamed(env: Env, x: string) { forall k, l :: 0 <= k < |env| && 0 <= l < |env[k]| ==> env[k][l].name != x }

  lemma {:induction false} FindInIsLast(vars: seq<Sym>, x: string)
    ensures match FindIn(vars, x)
            case None => forall l :: 0 <= l < |vars| ==> vars[l].name != x
            case Some(v) => exists j :: 0 <= j < |vars| && vars[j] == v && v.name == x && forall l :: j < l < |vars| ==> vars[l].name != x
    decreases |vars|
  {
    if vars != [] {
      var n := |vars| - 1;
      if vars[n].name != x { FindInIsLast(vars[..n], x); }
    }
  }

  lemma {:induction false} FoundIsLast(env: Env, x: string)
    ensures match Find(env, x)
            case None => Unnamed(env, x)
            case Some(v) => exists i: nat, j: nat :: LastNamed(env, x, i, j) && env[i][j] == v
    decreases |env|
  {
    if env != [] {
      var n := |env| - 1;
      FindInIsLast(env[n], x);
      if FindIn(env[n], x).Some? {
        var j :| 0 <= j < |env[n]| && env[n][j] == FindIn(env[n], x).value && forall l :: j < l < |env[n]| ==> env[n][l].name != x;
        assert LastNamed(env, x, n, j);
      } else {
        FoundIsLast(env[..n], x);
        if Find(env[..n], x).Some? {
          var i: nat, j: nat :| LastNamed(env[..n], x, i, j) && env[i][j] == Find(env[..n], x).value;
          assert LastNamed(env, x, i, j);
        }
      }
    }
  }

  lemma OneLast(env: Env, x: string, i: nat, j: nat, i': nat, j': nat)
    requires LastNamed(env, x, i, j) && LastNamed(env, x, i', j')
    ensures i == i' && j == j'
  {
  }

  /** A name means its last declaration in the innermost scope that declares it, and nothing if and only if
      no scope does. */
  lemma FindIsInnermost(env: Env, x: string, v: Sym)
    ensures Find(env, x) == Some(v) <==> exists i: nat, j: nat :: LastNamed(env, x, i, j) && env[i][j] == v
    ensures Find(env, x) == None <==> Unnamed(env, x)
  {
    FoundIsLast(env, x);
    if i: nat, j: nat :| LastNamed(env, x, i, j) && env[i][j] == v {
      assert env[i][j].name == x;
      assert Find(env, x).Some?;
      var i': nat, j': nat :| LastNamed(env, x, i', j') && env[i'][j'] == Find(env, x).value;
      OneLast(env, x, i, j, i', j');
    }
  }

  // ----- What a closure declares itself it does not capture -----

  /** The first m scopes end with one that declares x, and from there on all that is named x is declared inside the d-th closure. */
  predicate Shadows(env: Env, m: nat, x: string, d: nat) {
    && m < |env|
    && (exists j :: 0 <= j < |env[m]| && env[m][j].name == x)
    && (forall k, l :: m <= k < |env| && 0 <= l < |env[k]| && env[k][l].name == x ==> env[k][l].home > d)
  }

  /** All of that name in a set is declared inside the d-th closure. */
  predicate Inner(vs: set<Sym>, x: string, d: nat) { forall v :: v in vs && v.name == x ==> v.home > d }

  lemma ShadowedIsInner(env: Env, m: nat, x: string, d: nat)
    requires Shadows(env, m, x, d)
    ensures Find(env, x).Some? && Find(env, x).value.name == x && Find(env, x).value.home > d
  {
    FoundIsLast(env, x);
    var j :| 0 <= j < |env[m]| && env[m][j].name == x;
    assert !Unnamed(env, x);
    var i: nat, l: nat :| LastNamed(env, x, i, l) && env[i][l] == Find(env, x).value;
    assert i >= m;
  }

  lemma FoundIsNamed(env: Env, x: string)
    ensures Find(env, x).Some? ==> Find(env, x).value.name == x
  {
    FoundIsLast(env, x);
    if Find(env, x).Some? {
      var i: nat, j: nat :| LastNamed(env, x, i, j) && env[i][j] == Find(env, x).value;
    }
  }

  /** A scope more keeps it, when all it declares by that name is declared inside. */
  lemma ShadowsDeeper(env: Env, m: nat, x: string, d: nat, vars: seq<Sym>)
    requires Shadows(env, m, x, d) && forall l :: 0 <= l < |vars| && vars[l].name == x ==> vars[l].home > d
    ensures Shadows(env + [vars], m, x, d)
  {
    var j :| 0 <= j < |env[m]| && env[m][j].name == x;
    assert (env + [vars])[m][j].name == x;
  }

  lemma {:induction false} ParamsAreInner(ps: seq<string>, vars: seq<Sym>, uid: nat, home: nat, x: string, d: nat)
    requires home > d && forall l :: 0 <= l < |vars| && vars[l].name == x ==> vars[l].home > d
    ensures forall l :: 0 <= l < |Params(ps, vars, uid, home)| && Params(ps, vars, uid, home)[l].name == x ==> Params(ps, vars, uid, home)[l].home > d
    decreases |ps|
  {
    if ps != [] {
      ParamsAreInner(ps[1..], AddVar(vars, Sym(ps[0], uid, home)), if |vars| < MAX_SCOPE then uid + 1 else uid, home, x, d);
    }
  }

  lemma {:induction false} UsesAreInner(us: seq<string>, env: Env, vars: seq<Sym>, m: nat, x: string, d: nat)
    requires x in us ==> Shadows(env, m, x, d)
    requires forall l :: 0 <= l < |vars| && vars[l].name == x ==> vars[l].home > d
    ensures forall l :: 0 <= l < |Uses(us, env, vars)| && Uses(us, env, vars)[l].name == x ==> Uses(us, env, vars)[l].home > d
    decreases |us|
  {
    if us != [] {
      FoundIsNamed(env, us[0]);
      if us[0] == x { ShadowedIsInner(env, m, x, d); }
      match Find(env, us[0])
      case None => UsesAreInner(us[1..], env, vars, m, x, d);
      case Some(v) => UsesAreInner(us[1..], env, AddVar(vars, v), m, x, d);
    }
  }

  /** Where x is shadowed, it stays so, and all of that name that is read is declared inside. */
  lemma {:induction false} ReadsAreInner(n: Node, env: Env, uid: nat, depth: nat, m: nat, x: string, d: nat)
    requires env != [] && Shadows(env, m, x, d) && depth > d
    ensures Inner(Meaning(n, env, uid, depth).seen, x, d) && Shadows(Meaning(n, env, uid, depth).env, m, x, d)
    decreases n, 1
  {
    match n
    case Declare(y) => DeclareShadows(env, uid, depth, m, x, d, y);
    case Read(y) =>
      FoundIsNamed(env, y);
      if y == x { ShadowedIsInner(env, m, x, d); }
    case Block(body) =>
      ShadowsDeeper(env, m, x, d, []);
      AllReadsAreInner(body, env + [[]], uid, depth, m, x, d);
    case Closure(ps, us, body) =>
      if depth < MAX_CLOSURES {
        var params := Params(ps, [], uid, depth + 1);
        ParamsAreInner(ps, [], uid, depth + 1, x, d);
        UsesAreInner(us, env, params, m, x, d);
        ShadowsDeeper(env, m, x, d, Uses(us, env, params));
        AllReadsAreInner(body, env + [Uses(us, env, params)], ParamUids(ps, 0, uid), depth + 1, m, x, d);
      }
  }

  lemma DeclareShadows(env: Env, uid: nat, depth: nat, m: nat, x: string, d: nat, y: string)
    requires env != [] && Shadows(env, m, x, d) && depth > d
    ensures Shadows(Meaning(Declare(y), env, uid, depth).env, m, x, d)
  {
    var r: Env := Meaning(Declare(y), env, uid, depth).env;
    var j :| 0 <= j < |env[m]| && env[m][j].name == x;
    assert r[m][j].name == x;
  }

  lemma {:induction false} AllReadsAreInner(ns: seq<Node>, env: Env, uid: nat, depth: nat, m: nat, x: string, d: nat)
    requires env != [] && Shadows(env, m, x, d) && depth > d
    ensures Inner(MeaningAll(ns, env, uid, depth).seen, x, d) && Shadows(MeaningAll(ns, env, uid, depth).env, m, x, d)
    decreases ns, 0
  {
    if ns != [] {
      var a := Meaning(ns[0], env, uid, depth);
      ReadsAreInner(ns[0], env, uid, depth, m, x, d);
      AllReadsAreInner(ns[1..], a.env, a.uid, depth, m, x, d);
    }
  }

  lemma {:induction false} ParamIsDeclared(ps: seq<string>, vars: seq<Sym>, uid: nat, home: nat, k: nat)
    requires k < |ps| && |vars| + k < MAX_SCOPE
    ensures var all := Params(ps, vars, uid, home); |vars| + k < |all| && all[|vars| + k].name == ps[k]
    decreases |ps|
  {
    var more := vars + [Sym(ps[0], uid, home)];
    if k == 0 { ParamsKeep(ps[1..], more, uid + 1, home); } else { ParamIsDeclared(ps[1..], more, uid + 1, home, k - 1); }
  }

  lemma {:induction false} ParamsKeep(ps: seq<string>, vars: seq<Sym>, uid: nat, home: nat)
    ensures vars <= Params(ps, vars, uid, home)
    decreases |ps|
  {
    if ps != [] { ParamsKeep(ps[1..], AddVar(vars, Sym(ps[0], uid, home)), if |vars| < MAX_SCOPE then uid + 1 else uid, home); }
  }

  lemma {:induction false} UsesKeep(us: seq<string>, env: Env, vars: seq<Sym>)
    ensures vars <= Uses(us, env, vars)
    decreases |us|
  {
    if us != [] {
      match Find(env, us[0])
      case None => UsesKeep(us[1..], env, vars);
      case Some(v) => UsesKeep(us[1..], env, AddVar(vars, v));
    }
  }

  lemma {:induction false} UsedIsNamed(us: seq<string>, env: Env)
    ensures forall v :: v in UsedSyms(us, env) ==> v.name in us
    decreases |us|
  {
    if us != [] {
      FoundIsNamed(env, us[0]);
      UsedIsNamed(us[1..], env);
    }
  }

  /** A closure never captures a variable it declares again as a parameter, however often and wherever that
      name is declared outside, as long as the scope has room for the parameter. */
  lemma ParameterIsNotCaptured(ps: seq<string>, us: seq<string>, body: seq<Node>, env: Env, uid: nat, depth: nat, k: nat)
    requires env != [] && depth < MAX_CLOSURES && k < |ps| && k < MAX_SCOPE && ps[k] !in us
    ensures var captures := Meaning(Closure(ps, us, body), env, uid, depth).captures;
            captures != [] && forall v :: v in captures[|captures| - 1] ==> v.name != ps[k]
  {
    var params, x := Params(ps, [], uid, depth + 1), ps[k];
    var vars := Uses(us, env, params);
    ParamsAreInner(ps, [], uid, depth + 1, x, depth);
    ParamIsDeclared(ps, [], uid, depth + 1, k);
    UsesKeep(us, env, params);
    UsesAreInner(us, env, params, 0, x, depth);
    assert (env + [vars])[|env|][k].name == x;
    assert Shadows(env + [vars], |env|, x, depth);
    AllReadsAreInner(body, env + [vars], ParamUids(ps, 0, uid), depth + 1, |env|, x, depth);
    UsedIsNamed(us, env);
  }

  // ----- What a closure captures is what it reads from outside -----

  function Symbols(env: Env): set<Sym> { set k, l | 0 <= k < |env| && 0 <= l < |env[k]| :: env[k][l] }

  /** A set of variables and the d-th closure divide what is declared in the same way. */
  predicate Divided(vs: set<Sym>, outer: set<Sym>, d: nat) { forall v :: v in vs ==> (v in outer <==> v.home <= d) }

  predicate AllDivided(vars: seq<Sym>, outer: set<Sym>, d: nat) { forall l :: 0 <= l < |vars| ==> (vars[l] in outer <==> vars[l].home <= d) }

  predicate EnvDivided(env: Env, outer: set<Sym>, d: nat) { forall k :: 0 <= k < |env| ==> AllDivided(env[k], outer, d) }

  predicate Outer(outer: set<Sym>, d: nat) { forall v :: v in outer ==> v.home <= d }

  lemma FoundIsDivided(env: Env, x: string, outer: set<Sym>, d: nat)
    requires EnvDivided(env, outer, d) && Find(env, x).Some?
    ensures Find(env, x).value in outer <==> Find(env, x).value.home <= d
  {
    FoundIsLast(env, x);
    var i: nat, j: nat :| LastNamed(env, x, i, j) && env[i][j] == Find(env, x).value;
    assert AllDivided(env[i], outer, d);
  }

  lemma {:induction false} ParamsAreDivided(ps: seq<string>, vars: seq<Sym>, uid: nat, home: nat, outer: set<Sym>, d: nat)
    requires AllDivided(vars, outer, d) && Outer(outer, d) && home > d
    ensures AllDivided(Params(ps, vars, uid, home), outer, d)
    decreases |ps|
  {
    if ps != [] { ParamsAreDivided(ps[1..], AddVar(vars, Sym(ps[0], uid, home)), if |vars| < MAX_SCOPE then uid + 1 else uid, home, outer, d); }
  }

  lemma {:induction false} UsesAreDivided(us: seq<string>, env: Env, vars: seq<Sym>, outer: set<Sym>, d: nat)
    requires AllDivided(vars, outer, d) && EnvDivided(env, outer, d)
    ensures AllDivided(Uses(us, env, vars), outer, d)
    decreases |us|
  {
    if us != [] {
      match Find(env, us[0])
      case None => UsesAreDivided(us[1..], env, vars, outer, d);
      case Some(v) =>
        FoundIsDivided(env, us[0], outer, d);
        UsesAreDivided(us[1..], env, AddVar(vars, v), outer, d);
    }
  }

  lemma InnerIsDivided(ps: seq<string>, us: seq<string>, env: Env, inner: Env, uid: nat, depth: nat, outer: set<Sym>, d: nat)
    requires EnvDivided(env, outer, d) && Outer(outer, d) && depth >= d
    requires inner == env + [Uses(us, env, Params(ps, [], uid, depth + 1))]
    ensures EnvDivided(inner, outer, d)
  {
    ParamsAreDivided(ps, [], uid, depth + 1, outer, d);
    UsesAreDivided(us, env, Params(ps, [], uid, depth + 1), outer, d);
  }

  lemma {:induction false} ReadsAreDivided(n: Node, env: Env, uid: nat, depth: nat, outer: set<Sym>, d: nat)
    requires env != [] && EnvDivided(env, outer, d) && Outer(outer, d) && depth > d
    ensures Divided(Meaning(n, env, uid, depth).seen, outer, d) && EnvDivided(Meaning(n, env, uid, depth).env, outer, d)
    decreases n, 1
  {
    match n
    case Declare(y) => DeclareIsDivided(env, uid, depth, outer, d, y);
    case Read(y) => if Find(env, y).Some? { FoundIsDivided(env, y, outer, d); }
    case Block(body) => AllReadsAreDivided(body, env + [[]], uid, depth, outer, d);
    case Closure(ps, us, body) =>
      if depth < MAX_CLOSURES {
        var inner := env + [Uses(us, env, Params(ps, [], uid, depth + 1))];
        InnerIsDivided(ps, us, env, inner, uid, depth, outer, d);
        AllReadsAreDivided(body, inner, ParamUids(ps, 0, uid), depth + 1, outer, d);
      }
  }

  lemma DeclareIsDivided(env: Env, uid: nat, depth: nat, outer: set<Sym>, d: nat, y: string)
    requires env != [] && EnvDivided(env, outer, d) && Outer(outer, d) && depth > d
    ensures EnvDivided(Meaning(Declare(y), env, uid, depth).env, outer, d)
  {
    assert AllDivided(env[|env| - 1], outer, d);
  }

  lemma {:induction false} AllReadsAreDivided(ns: seq<Node>, env: Env, uid: nat, depth: nat, outer: set<Sym>, d: nat)
    requires env != [] && EnvDivided(env, outer, d) && Outer(outer, d) && depth > d
    ensures Divided(MeaningAll(ns, env, uid, depth).seen, outer, d) && EnvDivided(MeaningAll(ns, env, uid, depth).env, outer, d)
    decreases ns, 0
  {
    if ns != [] {
      var a := Meaning(ns[0], env, uid, depth);
      ReadsAreDivided(ns[0], env, uid, depth, outer, d);
      AllReadsAreDivided(ns[1..], a.env, a.uid, depth, outer, d);
    }
  }

  /** A closure captures exactly the variables of its use list and those of the scopes around it that are
      read in it, at any depth. */
  lemma CapturesReadsFromOutside(ps: seq<string>, us: seq<string>, body: seq<Node>, env: Env, uid: nat, depth: nat)
    requires env != [] && depth < MAX_CLOSURES && Outer(Symbols(env), depth)
    ensures var inner := env + [Uses(us, env, Params(ps, [], uid, depth + 1))];
            var seen := MeaningAll(body, inner, ParamUids(ps, 0, uid), depth + 1).seen;
            var captures := Meaning(Closure(ps, us, body), env, uid, depth).captures;
            captures != [] && captures[|captures| - 1] == UsedSyms(us, env) + (seen * Symbols(env))
  {
    var outer := Symbols(env);
    var inner := env + [Uses(us, env, Params(ps, [], uid, depth + 1))];
    forall k | 0 <= k < |env| ensures AllDivided(env[k], outer, depth) {
      forall l | 0 <= l < |env[k]| ensures env[k][l] in outer && env[k][l].home <= depth { assert env[k][l] in outer; }
    }
    InnerIsDivided(ps, us, env, inner, uid, depth, outer, depth);
    AllReadsAreDivided(body, inner, ParamUids(ps, 0, uid), depth + 1, outer, depth);
    var seen := MeaningAll(body, inner, ParamUids(ps, 0, uid), depth + 1).seen;
    assert Outside(seen, depth) == seen * outer;
  }

  lemma {:induction false} ParamsWithin(ps: seq<string>, vars: seq<Sym>, uid: nat, home: nat)
    requires forall l :: 0 <= l < |vars| ==> vars[l].home <= home
    ensures forall l :: 0 <= l < |Params(ps, vars, uid, home)| ==> Params(ps, vars, uid, home)[l].home <= home
    decreases |ps|
  {
    if ps != [] { ParamsWithin(ps[1..], AddVar(vars, Sym(ps[0], uid, home)), if |vars| < MAX_SCOPE then uid + 1 else uid, home); }
  }

  lemma {:induction false} UsesWithin(us: seq<string>, env: Env, vars: seq<Sym>, depth: nat)
    requires Outer(Symbols(env), depth) && forall l :: 0 <= l < |vars| ==> vars[l].home <= depth + 1
    ensures forall l :: 0 <= l < |Uses(us, env, vars)| ==> Uses(us, env, vars)[l].home <= depth + 1
    decreases |us|
  {
    if us != [] {
      FoundIsLast(env, us[0]);
      match Find(env, us[0])
      case None => UsesWithin(us[1..], env, vars, depth);
      case Some(v) =>
        var i: nat, j: nat :| LastNamed(env, us[0], i, j) && env[i][j] == v;
        assert v in Symbols(env);
        UsesWithin(us[1..], env, AddVar(vars, v), depth);
    }
  }

  /** Wherever the meaning of a program comes to, all variables in scope are declared in or outside the
      closure it is in: at the start, behind every part, and at the start of a closure's body. */
  lemma HomesAreOutside(n: Node, ps: seq<string>, us: seq<string>, env: Env, uid: nat, depth: nat)
    requires env != [] && Outer(Symbols(env), depth)
    ensures Outer(Symbols([[]]), 0)
    ensures Outer(Symbols(Meaning(n, env, uid, depth).env), depth)
    ensures Outer(Symbols(env + [Uses(us, env, Params(ps, [], uid, depth + 1))]), depth + 1)
  {
    ParamsWithin(ps, [], uid, depth + 1);
    UsesWithin(us, env, Params(ps, [], uid, depth + 1), depth);
    var inner := env + [Uses(us, env, Params(ps, [], uid, depth + 1))];
    forall v | v in Symbols(inner) ensures v.home <= depth + 1 {
      var k, l :| 0 <= k < |inner| && 0 <= l < |inner[k]| && inner[k][l] == v;
      if k < |env| { assert v in Symbols(env); }
    }
    var r := Meaning(n, env, uid, depth).env;
    forall v | v in Symbols(r) ensures v.home <= depth {
      var k, l :| 0 <= k < |r| && 0 <= l < |r[k]| && r[k][l] == v;
      if k < |env| && l < |env[k]| { assert env[k][l] in Symbols(env); }
    }
  }
}
