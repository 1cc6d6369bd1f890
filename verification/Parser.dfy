/** The parser as it runs: methods that move a token cursor, each doing what its grammar function says. */
module Parser {
  import opened Tokens
  import opened TypeSyntax
  import opened ExprSyntax

  /** How a parsing method ends: with a node, with the compiler's fatal error, or at a construct left out here. */
  datatype Outcome<+T> = Node(node: T) | Failure | LeftOut {
    function Propagate<U>(): Outcome<U>
      requires !Node?
    {
      if Failure? then Failure else LeftOut
    }
  }

  /** The method's result and the tokens it leaves are those of the grammar function. */
  predicate Agrees<T(==)>(r: Outcome<T>, spec: Parse<T>, left: Stream) {
    match spec
    case Parsed(v, rest) => r == Node(v) && left == rest
    case Fatal => r == Failure
    case Outside => r == LeftOut
  }

  /** A list in front of what a list parser still finds. */
  function Prepend<T>(front: seq<T>, r: Parse<seq<T>>): Parse<seq<T>> {
    if r.Parsed? then Parsed(front + r.value, r.rest) else r
  }

  lemma PrependOne<T>(front: seq<T>, x: T, r: Parse<seq<T>>)
    ensures Prepend(front + [x], r) == Prepend(front, Prepend([x], r))
  {
    if r.Parsed? { assert (front + [x]) + r.value == front + ([x] + r.value); }
  }

  lemma PrependEnds<T>(front: seq<T>, r: Parse<seq<T>>, left: Stream)
    ensures Prepend([], r) == r
    ensures Prepend(front, Parsed([], left)) == Parsed(front, left)
  {
    if r.Parsed? { assert [] + r.value == r.value; }
    assert front + [] == front;
  }

  /** What a list parser still finds: nothing after an element without a comma behind it. */
  function MoreParams(more: bool, left: Stream): Parse<seq<TypeSyntax.Type>> {
    if more then ParseParams(left) else Parsed([], left)
  }

  function MoreArgs(more: bool, left: Stream): Parse<seq<Expr>> {
    if more then ParseArgList(left) else Parsed([], left)
  }

  function MoreElems(comma: bool, left: Stream): Parse<seq<Expr>> {
    if comma then ParseElems(Before(T_COMMA, left)) else Parsed([], left)
  }

  class ExprParser {
    const ts: TokenStream

    constructor (ts: TokenStream)
      ensures this.ts == ts
    {
      this.ts := ts;
    }

    // ----- Types -----

    method Type() returns (r: Outcome<TypeSyntax.Type>)
      requires ts.Valid()
      modifies ts
      ensures ts.Valid() && Agrees(r, ParseType(old(ts.Left())), ts.Left())
      decreases ts.Left().Len(), 1
    {
      var amp := ts.Match(T_AMP);
      if amp {
        var mut := ts.AtIdent(MutWord);
        if mut { var _ := ts.Advance(); }
        r := PrefixedType(if mut then PMutRef else PRef);
        return;
      }
      var own := ts.Match(T_KW_OWN);
      if own { r := PrefixedType(POwn); return; }
      var star := ts.Match(T_STAR);
      if star { r := PrefixedType(PPtr); return; }
      var bracket := ts.Match(T_LBRACKET);
      if bracket { r := ArrayType(); return; }
      if ts.Check(T_KW_FN) {
        var _ := ts.Advance();
        r := NamedType(TypeWord(NFn, 0));
      } else if ts.Check(T_IDENT) {
        var t := ts.Advance();
        r := NamedType(t.text);
      } else {
        r := Failure;
      }
    }

    method PrefixedType(p: Prefix) returns (r: Outcome<TypeSyntax.Type>)
      requires ts.Valid()
      modifies ts
      ensures ts.Valid() && Agrees(r, Under(p, ParseType(old(ts.Left()))), ts.Left())
      decreases ts.Left().Len(), 2
    {
      var el := Type();
      if !el.Node? { return Failure; }
      r := Node(match p
                case PRef => TRef(el.node)
                case PMutRef => TMutRef(el.node)
                case POwn => TOwn(el.node)
                case PPtr => TPtr(el.node));
    }

    method ArrayType() returns (r: Outcome<TypeSyntax.Type>)
      requires ts.Valid()
      modifies ts
      ensures ts.Valid() && Agrees(r, ParseArray(old(ts.Left())), ts.Left())
      decreases ts.Left().Len(), 2
    {
      var el := Type();
      if !el.Node? { return Failure; }
      var closed := ts.Match(T_RBRACKET);
      r := if closed then Node(TArray(el.node)) else Failure;
    }

    method NamedType(n: Word) returns (r: Outcome<TypeSyntax.Type>)
      requires ts.Valid()
      modifies ts
      ensures ts.Valid() && Agrees(r, ParseNamed(n, old(ts.Left())), ts.Left())
      decreases ts.Left().Len(), 4
    {
      var k := KindOfName(n);
      if k.NArray? { return Node(TArray(TPrim(Mixed))); }
      if k.NPrim? { return Node(TPrim(k.p)); }
      if k.NCallable? && !ts.Check(T_LPAREN) { return Node(TFn([], true, TPrim(Mixed))); }
      if k.NFn? || k.NCallable? {
        var paren := ts.Match(T_LPAREN);
        if paren { r := FnType(); } else { r := Node(TClass(n)); }
      } else if k.NMap? {
        var angle := ts.Match(T_LT);
        if angle { r := MapType(); } else { r := Node(TMap(TPrim(Mixed), TPrim(Mixed))); }
      } else if k.NResult? {
        var angle := ts.Match(T_LT);
        if angle { r := ResultType(); } else { r := Node(TResult(TPrim(Mixed), TPrim(Text))); }
      } else if k.NClass? {
        r := Node(TClass(n));
      } else {
        var angle := ts.Match(T_LT);
        if angle { r := WrappedType(k); } else { r := Node(Wrap(k, TPrim(Mixed))); }
      }
    }

    method WrappedType(k: NameKind) returns (r: Outcome<TypeSyntax.Type>)
      requires ts.Valid()
      modifies ts
      ensures ts.Valid() && Agrees(r, ParseWrapped(k, old(ts.Left())), ts.Left())
      decreases ts.Left().Len(), 2
    {
      var el := Type();
      if !el.Node? { return Failure; }
      var closed := ts.Match(T_GT);
      r := if closed then Node(Wrap(k, el.node)) else Failure;
    }

    method MapType() returns (r: Outcome<TypeSyntax.Type>)
      requires ts.Valid()
      modifies ts
      ensures ts.Valid() && Agrees(r, ParseMap(old(ts.Left())), ts.Left())
      decreases ts.Left().Len(), 2
    {
      var k := Type();
      if !k.Node? { return Failure; }
      var comma := ts.Match(T_COMMA);
      if !comma { return Failure; }
      var v := Type();
      if !v.Node? { return Failure; }
      var closed := ts.Match(T_GT);
      r := if closed then Node(TMap(k.node, v.node)) else Failure;
    }

    method ResultType() returns (r: Outcome<TypeSyntax.Type>)
      requires ts.Valid()
      modifies ts
      ensures ts.Valid() && Agrees(r, ParseResult(old(ts.Left())), ts.Left())
      decreases ts.Left().Len(), 2
    {
      var ok := Type();
      if !ok.Node? { return Failure; }
      var err: Outcome<TypeSyntax.Type> := Node(TPrim(Text));
      var comma := ts.Match(T_COMMA);
      if comma { err := Type(); }
      if !err.Node? { return Failure; }
      var closed := ts.Match(T_GT);
      r := if closed then Node(TResult(ok.node, err.node)) else Failure;
    }

    method FnType() returns (r: Outcome<TypeSyntax.Type>)
      requires ts.Valid()
      modifies ts
      ensures ts.Valid() && Agrees(r, ParseFn(old(ts.Left())), ts.Left())
      decreases ts.Left().Len(), 3
    {
      ghost var start := ts.Left();
      var ps: seq<TypeSyntax.Type> := [];
      PrependEnds(ps, ParseParams(start), start);
      var more := true;
      while more && !ts.Check(T_RPAREN) && !ts.Check(T_EOF)
        invariant ts.Valid() && ts.Left().Len() <= start.Len()
        invariant ParseParams(start) == Prepend(ps, MoreParams(more, ts.Left()))
        decreases ts.Left().Len(), more
      {
        ghost var here := ts.Left();
        var p := Type();
        if !p.Node? { return Failure; }
        more := ts.Match(T_COMMA);
        PrependOne(ps, p.node, MoreParams(more, ts.Left()));
        PrependEnds([p.node], ParseParams(here), ts.Left());
        ps := ps + [p.node];
      }
      PrependEnds(ps, ParseParams(start), ts.Left());
      var closed := ts.Match(T_RPAREN);
      if !closed { return Failure; }
      assert ParseFn(start) == ParseReturn(ps, ts.Left());
      var arrow := ts.Match(T_ARROW);
      if !arrow { return Node(TFn(ps, false, TPrim(Void))); }
      var ret := Type();
      r := if ret.Node? then Node(TFn(ps, false, ret.node)) else Failure;
    }

    // ----- Expressions -----

    method Assign() returns (r: Outcome<Expr>)
      requires ts.Valid()
      modifies ts
      ensures ts.Valid() && Agrees(r, ParseAssign(old(ts.Left())), ts.Left())
      decreases ts.Left().Len(), 30
    {
      ghost var start := ts.Left();
      ts.PeekAhead();
      if ts.Check(T_VAR) && ts.Peek(1).kind == T_COLON && StartsType(ts.Peek(2).kind) {
        var x := ts.Advance();
        var _ := ts.Advance();
        assert ParseAssign(start) == ParseDecl(x.text, ts.Left());
        var ann := Type();
        if !ann.Node? { return ann.Propagate(); }
        var init := ts.Match(T_ASSIGN);
        if !init { return Node(EDecl(x.text, ann.node)); }
        var v := Assign();
        return if v.Node? then Node(EDeclInit(x.text, ann.node, v.node)) else v;
      }
      var lhs := Ternary();
      if !lhs.Node? { return lhs; }
      var k := ts.Peek(0).kind;
      assert ts.Check(k);
      if IsAssignOp(k) {
        var _ := ts.Advance();
        var v;
        if k == T_QQASSIGN { v := Ternary(); } else { v := Assign(); }
        r := if v.Node? then Node(EAssign(k, lhs.node, v.node)) else v;
      } else if k == T_INCR || k == T_DECR {
        var _ := ts.Advance();
        var one := EInt(1);
        var sum := EBin(if k == T_INCR then T_PLUS else T_MINUS, lhs.node, one);
        r := Node(EAssign(T_ASSIGN, lhs.node, sum));
      } else {
        r := lhs;
      }
    }

    method Ternary() returns (r: Outcome<Expr>)
      requires ts.Valid()
      modifies ts
      ensures ts.Valid() && Agrees(r, ParseTernary(old(ts.Left())), ts.Left())
      decreases ts.Left().Len(), 29
    {
      var cond := BinopLevel(0);
      if !cond.Node? { return cond; }
      var coalesce := ts.Match(T_QUESTIONQUESTION);
      if coalesce {
        var els := Ternary();
        return if els.Node? then Node(EBin(T_QUESTIONQUESTION, cond.node, els.node)) else els;
      }
      var choose := ts.Match(T_QUESTION);
      if choose { r := Branches(cond.node); } else { r := cond; }
    }

    /** The branches of a conditional, after its question mark. */
    method Branches(cond: Expr) returns (r: Outcome<Expr>)
      requires ts.Valid()
      modifies ts
      ensures ts.Valid() && Agrees(r, ParseBranches(cond, old(ts.Left())), ts.Left())
      decreases ts.Left().Len(), 31
    {
      var thn := Assign();
      if !thn.Node? { return thn; }
      var colon := ts.Match(T_COLON);
      if !colon { return Failure; }
      var els := Ternary();
      r := if els.Node? then Node(ETern(cond, thn.node, els.node)) else els;
    }

    /** Is k one of the operators of the level? */
    method FindOperator(lvl: nat, k: TokKind) returns (found: bool)
      requires lvl < NLEVELS
      ensures found <==> OpStrength(k) == BINARY + lvl
    {
      found := false;
      var ops := Level(lvl);
      for i := 0 to |ops|
        invariant k !in ops[..i]
      {
        if ops[i] == k {
          LevelsByStrength(k, lvl);
          return true;
        }
      }
      assert ops[..|ops|] == ops;
      LevelsByStrength(k, lvl);
    }

    method BinopLevel(lvl: nat) returns (r: Outcome<Expr>)
      requires ts.Valid() && lvl <= NLEVELS
      modifies ts
      ensures ts.Valid() && Agrees(r, ParseLevel(lvl, old(ts.Left())), ts.Left())
      decreases ts.Left().Len(), 28 - lvl
    {
      ghost var start := ts.Left();
      if lvl >= NLEVELS { r := Pow(); return; }
      r := BinopLevel(lvl + 1);
      if !r.Node? { return; }
      while true
        invariant ts.Valid() && ts.Left().Len() < start.Len()
        invariant r.Node? && ParseLevel(lvl, start) == ParseLoop(lvl, r.node, ts.Left())
        decreases ts.Left().Len()
      {
        var k := ts.Peek(0).kind;
        assert ts.Check(k);
        var found := FindOperator(lvl, k);
        if !found { return; }
        var _ := ts.Advance();
        var right := BinopLevel(lvl + 1);
        if !right.Node? { return right; }
        r := Node(EBin(k, r.node, right.node));
      }
    }

    method Pow() returns (r: Outcome<Expr>)
      requires ts.Valid()
      modifies ts
      ensures ts.Valid() && Agrees(r, ParsePow(old(ts.Left())), ts.Left())
      decreases ts.Left().Len(), 16
    {
      var b := Unary();
      if !b.Node? || !ts.Check(T_POW) { return b; }
      var _ := ts.Advance();
      var e := Pow();
      r := if e.Node? then Node(EBin(T_POW, b.node, e.node)) else e;
    }

    method Unary() returns (r: Outcome<Expr>)
      requires ts.Valid()
      modifies ts
      ensures ts.Valid() && Agrees(r, ParseUnary(old(ts.Left())), ts.Left())
      decreases ts.Left().Len(), 15
    {
      var k := ts.Peek(0).kind;
      assert ts.Check(k);
      ts.PeekAhead();
      if IsPrefixOp(k) {
        var _ := ts.Advance();
        var o := Unary();
        r := if o.Node? then Node(EUn(k, o.node)) else o;
      } else if k == T_AMP && (ts.Peek(1).kind == T_VAR || ts.Peek(1).kind == T_AMP) {
        var _ := ts.Advance();
        var o := Unary();
        r := if o.Node? then Node(EBorrow(o.node)) else o;
      } else if k == T_STAR {
        var _ := ts.Advance();
        var o := Unary();
        r := if o.Node? then Node(EDeref(o.node)) else o;
      } else {
        r := Postfix();
      }
    }

    method Postfix() returns (r: Outcome<Expr>)
      requires ts.Valid()
      modifies ts
      ensures ts.Valid() && Agrees(r, ParsePostfix(old(ts.Left())), ts.Left())
      decreases ts.Left().Len(), 14
    {
      ghost var start := ts.Left();
      r := Primary();
      if !r.Node? { return; }
      while true
        invariant ts.Valid() && ts.Left().Len() < start.Len()
        invariant r.Node? && ParsePostfix(start) == ParseSuffixes(r.node, ts.Left())
        decreases ts.Left().Len()
      {
        var k := ts.Peek(0).kind;
        assert ts.Check(k);
        if k == T_LBRACKET { r := Index(r.node); }
        else if k == T_ARROW { r := Member(r.node); }
        else if k == T_COLONCOLON { return LeftOut; }
        else if k == T_LPAREN {
          var args := CallArgs();
          r := if args.Node? then Node(ECall(r.node, args.node)) else args.Propagate();
        } else {
          ts.PeekAhead();
          var cast := ((k == T_KW_AS || ts.AtIdent(AsWord)) && ts.Peek(1).kind != T_VAR) || ts.AtIdent(IsWord);
          if cast { r := LeftOut; }
          return;
        }
        if !r.Node? { return; }
      }
    }

    /** One `[...]` suffix. */
    method Index(o: Expr) returns (r: Outcome<Expr>)
      requires ts.Valid() && ts.Left().Kind() == T_LBRACKET
      modifies ts
      ensures ts.Valid() && (r.Node? ==> ts.Left().Len() < old(ts.Left().Len()))
      ensures if r.Node? then ParseSuffixes(o, old(ts.Left())) == ParseSuffixes(r.node, ts.Left())
              else Agrees(r, ParseSuffixes(o, old(ts.Left())), ts.Left())
      decreases ts.Left().Len(), 13
    {
      var _ := ts.Advance();
      var empty := ts.Match(T_RBRACKET);
      if empty { return Node(EAppend(o)); }
      var i := Assign();
      if !i.Node? { return i; }
      if ts.Check(T_ELLIPSIS) { return LeftOut; }
      var closed := ts.Match(T_RBRACKET);
      r := if closed then Node(EIndex(o, i.node)) else Failure;
    }

    /** One `->name` or `->name(...)` suffix. */
    method Member(o: Expr) returns (r: Outcome<Expr>)
      requires ts.Valid() && ts.Left().Kind() == T_ARROW
      modifies ts
      ensures ts.Valid() && (r.Node? ==> ts.Left().Len() < old(ts.Left().Len()))
      ensures if r.Node? then ParseSuffixes(o, old(ts.Left())) == ParseSuffixes(r.node, ts.Left())
              else Agrees(r, ParseSuffixes(o, old(ts.Left())), ts.Left())
      decreases ts.Left().Len(), 13
    {
      ghost var start := ts.Left();
      var _ := ts.Advance();
      if !ts.Check(T_IDENT) { return Failure; }
      var name := ts.Advance();
      assert ParseSuffixes(o, start) == ParseMember(o, name.text, ts.Left());
      if !ts.Check(T_LPAREN) { return Node(EField(o, name.text)); }
      var args := CallArgs();
      r := if args.Node? then Node(EMethod(o, name.text, args.node)) else args.Propagate();
    }

    method CallArgs() returns (r: Outcome<seq<Expr>>)
      requires ts.Valid() && ts.Left().Kind() == T_LPAREN
      modifies ts
      ensures ts.Valid() && Agrees(r, ParseArgs(old(ts.Left()).Next()), ts.Left())
      decreases ts.Left().Len(), 11
    {
      var _ := ts.Advance();
      ghost var start := ts.Left();
      var args: seq<Expr> := [];
      PrependEnds(args, ParseArgList(start), start);
      var more := true;
      while more && !ts.Check(T_RPAREN) && !ts.Check(T_EOF)
        invariant ts.Valid() && ts.Left().Len() <= start.Len()
        invariant ParseArgList(start) == Prepend(args, MoreArgs(more, ts.Left()))
        decreases ts.Left().Len(), more
      {
        ghost var here := ts.Left();
        var a := Assign();
        if !a.Node? { return a.Propagate(); }
        more := ts.Match(T_COMMA);
        PrependOne(args, a.node, MoreArgs(more, ts.Left()));
        PrependEnds([a.node], ParseArgList(here), ts.Left());
        args := args + [a.node];
      }
      PrependEnds(args, ParseArgList(start), ts.Left());
      var closed := ts.Match(T_RPAREN);
      r := if closed then Node(args) else Failure;
    }

    method Primary() returns (r: Outcome<Expr>)
      requires ts.Valid()
      modifies ts
      ensures ts.Valid() && Agrees(r, ParsePrimary(old(ts.Left())), ts.Left())
      decreases ts.Left().Len(), 12
    {
      var k := ts.Peek(0).kind;
      assert ts.Check(k);
      if k == T_INT { var t := ts.Advance(); r := Node(EInt(t.ival)); }
      else if k == T_STR { var t := ts.Advance(); r := Node(EStr(t.text)); }
      else if k == T_HPHP_TRUE || k == T_HPHP_FALSE { var _ := ts.Advance(); r := Node(EBool(k == T_HPHP_TRUE)); }
      else if k == T_HPHP_NULL { var _ := ts.Advance(); r := Node(ENull); }
      else if k == T_VAR || k == T_IDENT {
        var t := ts.Advance();
        if !ts.Check(T_LPAREN) { return Node(EVar(t.text)); }
        var args := CallArgs();
        if !args.Node? { return args.Propagate(); }
        r := Node(if k == T_VAR then ECall(EVar(t.text), args.node) else ECallName(t.text, args.node));
      }
      else if k == T_LPAREN { var _ := ts.Advance(); r := Paren(); }
      else if k in {T_FLOAT, T_TPL, T_KW_FN, T_KW_FUNCTION, T_KW_NEW, T_KW_MATCH, T_LBRACKET} { r := LeftOut; }
      else { r := Failure; }
    }

    method Paren() returns (r: Outcome<Expr>)
      requires ts.Valid()
      modifies ts
      ensures ts.Valid() && Agrees(r, ParseParen(old(ts.Left())), ts.Left())
      decreases ts.Left().Len(), 33
    {
      var empty := ts.Match(T_RPAREN);
      if empty { return Node(ETuple([])); }
      var first := Assign();
      if !first.Node? { return first; }
      if ts.Check(T_COMMA) {
        var more := Elems();
        if !more.Node? { return more.Propagate(); }
        var closed := ts.Match(T_RPAREN);
        return if closed then Node(ETuple([first.node] + more.node)) else Failure;
      }
      var closed := ts.Match(T_RPAREN);
      r := if closed then first else Failure;
    }

    /** The loop of a tuple, from its first comma on. */
    method Elems() returns (r: Outcome<seq<Expr>>)
      requires ts.Valid()
      modifies ts
      ensures ts.Valid() && Agrees(r, ParseElems(old(ts.Left())), ts.Left())
      decreases ts.Left().Len(), 32
    {
      ghost var start := ts.Left();
      var elems: seq<Expr> := [];
      PrependEnds(elems, ParseElems(start), start);
      var comma := ts.Match(T_COMMA);
      while comma
        invariant ts.Valid() && ts.Left().Len() <= start.Len() && (comma ==> ts.Left().Len() < start.Len())
        invariant ParseElems(start) == Prepend(elems, MoreElems(comma, ts.Left()))
        decreases ts.Left().Len(), comma
      {
        PrependEnds(elems, ParseElems(start), ts.Left());
        if ts.Check(T_RPAREN) { return Node(elems); }
        var e := Assign();
        if !e.Node? { return e.Propagate(); }
        ghost var after := ts.Left();
        comma := ts.Match(T_COMMA);
        PrependOne(elems, e.node, ParseElems(after));
        elems := elems + [e.node];
      }
      PrependEnds(elems, ParseElems(start), ts.Left());
      r := Node(elems);
    }
  }
}
