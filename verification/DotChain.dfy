/** Chains of the `.` operator: gathered along the left spine and emitted as a balanced tree. */
module DotChain {
  /** An expression as far as `.` is concerned; anything else is an operand. */
  datatype Expr = Operand(id: nat) | Dot(l: Expr, r: Expr)

  /** The emitted calls. */
  datatype Code = Leaf(id: nat) | Concat(l: Code, r: Code)

  // ----- What is gathered -----

  function Operands(e: Expr): (r: seq<Expr>)
    ensures r != []
  {
    if e.Dot? then Operands(e.l) + [e.r] else [e]
  }

  method DotChainLen(e: Expr) returns (n: nat)
    ensures n == |Operands(e)|
  {
    n := 1;
    var x := e;
    while x.Dot?
      invariant n - 1 + |Operands(x)| == |Operands(e)|
      decreases x
    {
      n := n + 1;
      x := x.l;
    }
  }

  /** At most cap operands are stored, in source order. */
  method DotCollect(e: Expr, out: array<Expr>, cap: nat) returns (n: nat)
    requires cap <= out.Length
    modifies out
    ensures n == if |Operands(e)| < cap then |Operands(e)| else cap
    ensures out[..n] == Operands(e)[..n]
    decreases e
  {
    if e.Dot? {
      n := DotCollect(e.l, out, cap);
      ghost var m := n;
      if n < cap { out[n] := e.r; }
      n := if n + 1 > cap then cap else n + 1;
      assert out[..m] == Operands(e.l)[..m];
      if m < cap { assert out[..n] == out[..m] + [e.r]; }
    } else {
      if cap > 0 { out[0] := e; }
      n := if cap > 0 then 1 else 0;
    }
  }

  // ----- What is emitted -----

  /** Chains of more than three operands are balanced, shorter ones nested to the left. */
  function Emit(e: Expr): Code
    decreases e, 1
  {
    if e.Operand? then Leaf(e.id)
    else if |Operands(e)| > 3 then Balanced(EmitOperands(e))
    else Concat(Emit(e.l), Emit(e.r))
  }

  /** The code of each operand. */
  function EmitOperands(e: Expr): (r: seq<Code>)
    ensures |r| == |Operands(e)|
    decreases e, 0
  {
    if e.Dot? then EmitOperands(e.l) + [Emit(e.r)] else [Leaf(e.id)]
  }

  function Balanced(parts: seq<Code>): Code
    requires parts != []
    decreases |parts|
  {
    if |parts| == 1 then parts[0] else
    var mid := |parts| / 2;
    Concat(Balanced(parts[..mid]), Balanced(parts[mid..]))
  }

  /** The recursion over a range of the gathered parts. */
  method EmitDotChain(parts: seq<Code>, lo: nat, hi: nat) returns (code: Code)
    requires lo < hi <= |parts|
    ensures code == Balanced(parts[lo..hi])
    decreases hi - lo
  {
    if hi - lo == 1 {
      assert parts[lo..hi] == [parts[lo]];
      code := parts[lo];
    } else {
      var mid := lo + (hi - lo) / 2;
      var a := EmitDotChain(parts, lo, mid);
      var b := EmitDotChain(parts, mid, hi);
      BalancedSplit(parts[lo..hi], parts[lo..mid], parts[mid..hi]);
      code := Concat(a, b);
    }
  }

  lemma BalancedSplit(x: seq<Code>, a: seq<Code>, b: seq<Code>)
    requires a != [] && b != [] && x == a + b && |a| == |x| / 2
    ensures Balanced(x) == Concat(Balanced(a), Balanced(b))
  {
    assert x[..|a|] == a && x[|a|..] == b;
  }

  // ----- Meaning and order are kept -----

  /** What an expression stands for, given its operands. */
  function Value(e: Expr, env: nat -> string): string {
    if e.Dot? then Value(e.l, env) + Value(e.r, env) else env(e.id)
  }

  function Run(c: Code, env: nat -> string): string {
    if c.Concat? then Run(c.l, env) + Run(c.r, env) else env(c.id)
  }

  function RunAll(parts: seq<Code>, env: nat -> string): string {
    if parts == [] then "" else RunAll(parts[..|parts| - 1], env) + Run(parts[|parts| - 1], env)
  }

  lemma {:induction false} RunAllAppend(a: seq<Code>, b: seq<Code>, env: nat -> string)
    ensures RunAll(a + b, env) == RunAll(a, env) + RunAll(b, env)
    decreases |b|
  {
    if b == [] { assert a + b == a; } else {
      var init, last := b[..|b| - 1], b[|b| - 1];
      RunAllAppend(a, init, env);
      assert b == init + [last];
      Snoc(a, init, last, a + b);
      assert RunAll(a + b, env) == RunAll(a + init, env) + Run(last, env);
    }
  }

  lemma Snoc<T>(a: seq<T>, init: seq<T>, last: T, all: seq<T>)
    requires all == a + (init + [last])
    ensures all != [] && all[..|all| - 1] == a + init && all[|all| - 1] == last
  {
  }

  lemma RunOne(c: Code, env: nat -> string)
    ensures RunAll([c], env) == Run(c, env)
  {
    assert [c][..0] == [] && "" + Run(c, env) == Run(c, env);
  }

  lemma {:induction false} BalancedKeepsMeaning(parts: seq<Code>, env: nat -> string)
    requires parts != []
    ensures Run(Balanced(parts), env) == RunAll(parts, env)
    decreases |parts|
  {
    if |parts| == 1 {
      RunOne(parts[0], env);
      assert parts == [parts[0]];
    } else {
      var mid := |parts| / 2;
      var a, b := parts[..mid], parts[mid..];
      BalancedKeepsMeaning(a, env);
      BalancedKeepsMeaning(b, env);
      assert Balanced(parts) == Concat(Balanced(a), Balanced(b));
      RunAllAppend(a, b, env);
      assert parts == a + b;
    }
  }

  /** The balanced calls give the string that the left-associative chain stands for, operands of
      operands included. */
  lemma {:induction false} EmitKeepsMeaning(e: Expr, env: nat -> string)
    ensures Run(Emit(e), env) == Value(e, env)
    decreases e, 1
  {
    if e.Dot? {
      if |Operands(e)| > 3 {
        OperandsKeepMeaning(e, env);
        BalancedKeepsMeaning(EmitOperands(e), env);
      } else {
        EmitKeepsMeaning(e.l, env);
        EmitKeepsMeaning(e.r, env);
      }
    }
  }

  lemma {:induction false} OperandsKeepMeaning(e: Expr, env: nat -> string)
    ensures RunAll(EmitOperands(e), env) == Value(e, env)
    decreases e, 0
  {
    if e.Dot? {
      OperandsKeepMeaning(e.l, env);
      EmitKeepsMeaning(e.r, env);
      assert EmitOperands(e)[..|EmitOperands(e)| - 1] == EmitOperands(e.l);
    } else {
      assert [Leaf(e.id)][..0] == [] && RunAll([], env) + env(e.id) == env(e.id);
    }
  }

  function Ids(e: Expr): seq<nat> { if e.Dot? then Ids(e.l) + Ids(e.r) else [e.id] }

  function CodeIds(c: Code): seq<nat> { if c.Concat? then CodeIds(c.l) + CodeIds(c.r) else [c.id] }

  function AllIds(parts: seq<Code>): seq<nat> {
    if parts == [] then [] else AllIds(parts[..|parts| - 1]) + CodeIds(parts[|parts| - 1])
  }

  lemma {:induction false} AllIdsAppend(a: seq<Code>, b: seq<Code>)
    ensures AllIds(a + b) == AllIds(a) + AllIds(b)
    decreases |b|
  {
    if b == [] { assert a + b == a; } else {
      var init, last := b[..|b| - 1], b[|b| - 1];
      AllIdsAppend(a, init);
      assert b == init + [last];
      Snoc(a, init, last, a + b);
      assert AllIds(a + b) == AllIds(a + init) + CodeIds(last);
    }
  }

  lemma {:induction false} BalancedKeepsOrder(parts: seq<Code>)
    requires parts != []
    ensures CodeIds(Balanced(parts)) == AllIds(parts)
    decreases |parts|
  {
    if |parts| == 1 {
      assert AllIds(parts[..0]) == [];
    } else {
      var mid := |parts| / 2;
      var a, b := parts[..mid], parts[mid..];
      BalancedKeepsOrder(a);
      BalancedKeepsOrder(b);
      assert Balanced(parts) == Concat(Balanced(a), Balanced(b));
      AllIdsAppend(a, b);
      assert parts == a + b;
    }
  }

  /** Every operand is emitted once, in source order. */
  lemma {:induction false} EmitKeepsOrder(e: Expr)
    ensures CodeIds(Emit(e)) == Ids(e)
    decreases e, 1
  {
    if e.Dot? {
      if |Operands(e)| > 3 {
        OperandsKeepOrder(e);
        BalancedKeepsOrder(EmitOperands(e));
      } else {
        EmitKeepsOrder(e.l);
        EmitKeepsOrder(e.r);
      }
    }
  }

  lemma {:induction false} OperandsKeepOrder(e: Expr)
    ensures AllIds(EmitOperands(e)) == Ids(e)
    decreases e, 0
  {
    if e.Dot? {
      OperandsKeepOrder(e.l);
      EmitKeepsOrder(e.r);
      assert EmitOperands(e)[..|EmitOperands(e)| - 1] == EmitOperands(e.l);
    } else {
      assert [Leaf(e.id)][..0] == [] && AllIds([]) + [e.id] == [e.id];
    }
  }

  // ----- The depth is logarithmic -----

  function Depth(c: Code): nat {
    if c.Leaf? then 0 else 1 + if Depth(c.l) > Depth(c.r) then Depth(c.l) else Depth(c.r)
  }

  function Pow2(k: nat): nat { if k == 0 then 1 else 2 * Pow2(k - 1) }

  /** The least k with n <= 2^k. */
  function CeilLog2(n: nat): (k: nat)
    requires n > 0
  {
    if n == 1 then 0 else 1 + CeilLog2(n - n / 2)
  }

  lemma {:induction false} CeilLog2IsLeast(n: nat)
    requires n > 0
    ensures n <= Pow2(CeilLog2(n)) && (n > 1 ==> Pow2(CeilLog2(n) - 1) < n)
  {
    if n > 1 {
      CeilLog2IsLeast(n - n / 2);
      if n - n / 2 == 1 { assert Pow2(0) == 1; }
    }
  }

  lemma {:induction false} CeilLog2Grows(m: nat, n: nat)
    requires 0 < m <= n
    ensures CeilLog2(m) <= CeilLog2(n)
    decreases n
  {
    if m > 1 { CeilLog2Grows(m - m / 2, n - n / 2); }
  }

  /** n parts of depth at most d nest at most ceil(log2 n) deeper. */
  lemma {:induction false} BalancedDepth(parts: seq<Code>, d: nat)
    requires parts != [] && forall p :: p in parts ==> Depth(p) <= d
    ensures Depth(Balanced(parts)) <= CeilLog2(|parts|) + d
    decreases |parts|
  {
    if |parts| > 1 {
      var mid := |parts| / 2;
      BalancedDepth(parts[..mid], d);
      BalancedDepth(parts[mid..], d);
      CeilLog2Grows(mid, |parts| - mid);
    }
  }

  /** For plain operands that bound is reached: no arrangement of n operands is flatter. */
  lemma {:induction false} BalancedIsFlattest(c: Code)
    ensures 0 < |CodeIds(c)| && CeilLog2(|CodeIds(c)|) <= Depth(c)
  {
    BoundedLeaves(c, Depth(c));
    CeilLog2Bound(|CodeIds(c)|, Depth(c));
  }

  lemma {:induction false} BoundedLeaves(c: Code, k: nat)
    requires Depth(c) <= k
    ensures 0 < |CodeIds(c)| <= Pow2(k)
    decreases c
  {
    if c.Concat? {
      BoundedLeaves(c.l, k - 1);
      BoundedLeaves(c.r, k - 1);
    } else {
      Pow2Positive(k);
    }
  }

  lemma {:induction false} Pow2Positive(k: nat)
    ensures Pow2(k) > 0
  {
    if k > 0 { Pow2Positive(k - 1); }
  }

  lemma {:induction false} CeilLog2Bound(n: nat, k: nat)
    requires 0 < n <= Pow2(k)
    ensures CeilLog2(n) <= k
    decreases k
  {
    if n > 1 { CeilLog2Bound(n - n / 2, k - 1); }
  }
}
