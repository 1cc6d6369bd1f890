/** The newline filter and the grammar: where an expression may be broken into lines. */
module NewlineGrammar {
  import opened Basics
  import opened Tokens
  import opened TypeSyntax
  import opened ExprSyntax
  import opened ExprRoundTrip
  import opened ExprImage
  import NewlineFilter

  const START: NewlineFilter.State := NewlineFilter.START

  function Filter(raw: seq<Token>): seq<Token> { NewlineFilter.Filter(START, raw) }

  /** The tokens of a stream, and the stream of some tokens. */
  function TokensOf(s: Stream): seq<Token> { if s.End? then [] else [s.head] + TokensOf(s.tail) }

  function Open(ts: seq<Token>): Stream { if ts == [] then End else More(ts[0], Open(ts[1..])) }

  lemma {:induction false} OpenUndoesTokens(s: Stream)
    ensures Open(TokensOf(s)) == s
  {
    if s.More? {
      OpenUndoesTokens(s.tail);
      assert TokensOf(s)[1..] == TokensOf(s.tail);
    }
  }

  // ----- Printed expressions hold no newlines -----

  predicate OneLine(s: Stream) { s.More? ==> s.head.kind != T_NEWLINE && OneLine(s.tail) }

  lemma {:induction false} TypeOnOneLine(t: Type, rest: Stream)
    requires OneLine(rest)
    ensures OneLine(PrintType(t, rest))
    decreases t, 1
  {
    match t
    case TArray(el) => TypeOnOneLine(el, Before(T_RBRACKET, rest));
    case TVec(el) => TypeOnOneLine(el, Before(T_GT, rest));
    case TSet(el) => TypeOnOneLine(el, Before(T_GT, rest));
    case TOption(el) => TypeOnOneLine(el, Before(T_GT, rest));
    case TRc(el) => TypeOnOneLine(el, Before(T_GT, rest));
    case TMap(k, v) => PairOnOneLine(t, k, v, rest);
    case TResult(ok, err) => PairOnOneLine(t, ok, err, rest);
    case TRef(el) => TypeOnOneLine(el, rest);
    case TMutRef(el) => TypeOnOneLine(el, rest);
    case TPtr(el) => TypeOnOneLine(el, rest);
    case TOwn(el) => TypeOnOneLine(el, rest);
    case TFn(ps, _, ret) =>
      TypeOnOneLine(ret, rest);
      ParamsOnOneLine(ps, Before(T_RPAREN, if ret == TPrim(Void) then rest else Before(T_ARROW, PrintType(ret, rest))));
    case _ =>
  }

  lemma {:induction false} PairOnOneLine(t: Type, a: Type, b: Type, rest: Stream)
    requires OneLine(rest) && a < t && b < t
    ensures OneLine(PrintType(a, Before(T_COMMA, PrintType(b, Before(T_GT, rest)))))
    decreases t, 0
  {
    TypeOnOneLine(b, Before(T_GT, rest));
    TypeOnOneLine(a, Before(T_COMMA, PrintType(b, Before(T_GT, rest))));
  }

  lemma {:induction false} ParamsOnOneLine(ps: seq<Type>, rest: Stream)
    requires OneLine(rest)
    ensures OneLine(PrintParams(ps, rest))
    decreases ps, 0
  {
    if |ps| == 1 { TypeOnOneLine(ps[0], rest); }
    else if ps != [] {
      ParamsOnOneLine(ps[1..], rest);
      TypeOnOneLine(ps[0], Before(T_COMMA, PrintParams(ps[1..], rest)));
    }
  }

  lemma {:induction false} OnOneLine(e: Expr, p: int, rest: Stream)
    requires WellFormed(e) && OneLine(rest)
    ensures OneLine(Print(e, p, rest))
    decreases e, 2
  {
    if Strength(e) >= p { BareOnOneLine(e, rest); } else { BareOnOneLine(e, Before(T_RPAREN, rest)); }
  }

  lemma {:induction false} BareOnOneLine(e: Expr, rest: Stream)
    requires WellFormed(e) && OneLine(rest)
    ensures OneLine(Bare(e, rest))
    decreases e, 1
  {
    match e
    case ETuple(es) => TupleOnOneLine(e, rest);
    case ECallName(f, args) => ArgsOnOneLine(args, Before(T_RPAREN, rest));
    case ECall(fn, args) => SuffixOnOneLine(e, rest);
    case EIndex(o, i) => SuffixOnOneLine(e, rest);
    case EAppend(o) => SuffixOnOneLine(e, rest);
    case EField(o, name) => SuffixOnOneLine(e, rest);
    case EMethod(o, name, args) => SuffixOnOneLine(e, rest);
    case EUn(op, o) => OnOneLine(o, UNARY, rest);
    case EDeref(o) => OnOneLine(o, UNARY, rest);
    case EBorrow(o) => OnOneLine(o, UNARY, rest);
    case EBin(op, l, r) => BinOnOneLine(e, rest);
    case ETern(c, t, e') => TernOnOneLine(e, rest);
    case EAssign(op, t, v) =>
      var q := if op == T_QQASSIGN then TERNARY else ASSIGN;
      OnOneLine(v, q, rest);
      OnOneLine(t, TERNARY, Before(op, Print(v, q, rest)));
    case EDecl(x, ty) => TypeOnOneLine(ty, rest);
    case EDeclInit(x, ty, v) =>
      OnOneLine(v, ASSIGN, rest);
      TypeOnOneLine(ty, Before(T_ASSIGN, Print(v, ASSIGN, rest)));
    case _ =>
  }

  lemma {:induction false} TupleOnOneLine(e: Expr, rest: Stream)
    requires e.ETuple? && WellFormed(e) && OneLine(rest)
    ensures OneLine(Bare(e, rest))
    decreases e, 0
  {
    if |e.elems| == 1 { OnOneLine(e.elems[0], ASSIGN, Before(T_COMMA, Before(T_RPAREN, rest))); }
    else { ArgsOnOneLine(e.elems, Before(T_RPAREN, rest)); }
  }

  lemma {:induction false} SuffixOnOneLine(e: Expr, rest: Stream)
    requires Strength(e) == POSTFIX && WellFormed(e) && OneLine(rest) && !e.EBin?
    ensures OneLine(Bare(e, rest))
    decreases e, 0
  {
    match e
    case ECall(fn, args) =>
      ArgsOnOneLine(args, Before(T_RPAREN, rest));
      OnOneLine(fn, CalleeStrength(fn), Before(T_LPAREN, PrintArgs(args, Before(T_RPAREN, rest))));
    case EIndex(o, i) =>
      OnOneLine(i, ASSIGN, Before(T_RBRACKET, rest));
      OnOneLine(o, POSTFIX, Before(T_LBRACKET, Print(i, ASSIGN, Before(T_RBRACKET, rest))));
    case EAppend(o) => OnOneLine(o, POSTFIX, Before(T_LBRACKET, Before(T_RBRACKET, rest)));
    case EField(o, name) => OnOneLine(o, POSTFIX, Before(T_ARROW, More(Name(name), rest)));
    case EMethod(o, name, args) =>
      ArgsOnOneLine(args, Before(T_RPAREN, rest));
      OnOneLine(o, POSTFIX, Before(T_ARROW, More(Name(name), Before(T_LPAREN, PrintArgs(args, Before(T_RPAREN, rest))))));
  }

  lemma {:induction false} BinOnOneLine(e: Expr, rest: Stream)
    requires e.EBin? && WellFormed(e) && OneLine(rest)
    ensures OneLine(Bare(e, rest))
    decreases e, 0
  {
    if e.op == T_POW {
      OnOneLine(e.r, POWER, rest);
      OnOneLine(e.l, UNARY, Before(T_POW, Print(e.r, POWER, rest)));
    } else if e.op == T_QUESTIONQUESTION {
      OnOneLine(e.r, TERNARY, rest);
      OnOneLine(e.l, BINARY, Before(e.op, Print(e.r, TERNARY, rest)));
    } else {
      OnOneLine(e.r, OpStrength(e.op) + 1, rest);
      OnOneLine(e.l, OpStrength(e.op), Before(e.op, Print(e.r, OpStrength(e.op) + 1, rest)));
    }
  }

  lemma {:induction false} TernOnOneLine(e: Expr, rest: Stream)
    requires e.ETern? && WellFormed(e) && OneLine(rest)
    ensures OneLine(Bare(e, rest))
    decreases e, 0
  {
    var colon := Before(T_COLON, Print(e.els, TERNARY, rest));
    OnOneLine(e.els, TERNARY, rest);
    BareOnOneLine(e.thn, colon);
    BareOnOneLine(e.thn, Before(T_RPAREN, colon));
    OnOneLine(e.cond, BINARY, Before(T_QUESTION, PrintThen(e.thn, colon)));
  }

  lemma {:induction false} ArgsOnOneLine(es: seq<Expr>, rest: Stream)
    requires WellFormedAll(es) && OneLine(rest)
    ensures OneLine(PrintArgs(es, rest))
    decreases es, 0
  {
    if |es| == 1 { OnOneLine(es[0], ASSIGN, rest); }
    else if es != [] {
      ArgsOnOneLine(es[1..], rest);
      OnOneLine(es[0], ASSIGN, Before(T_COMMA, PrintArgs(es[1..], rest)));
    }
  }

  // ----- Breaking lines at operators -----

  lemma {:induction false} NothingToDrop(s: NewlineFilter.State, ts: seq<Token>)
    requires OneLine(Open(ts))
    ensures NewlineFilter.Filter(s, ts) == ts
    decreases |ts|
  {
    if ts != [] {
      NothingToDrop(NewlineFilter.After(s, ts[0], ts[1..]), ts[1..]);
      assert ts == [ts[0]] + ts[1..];
    }
  }

  /** Between two operands: the binary operators of every level, the power, both ternary ones, and what
      separates branches, arguments and fields. */
  predicate Between(k: TokKind) { TERNARY <= OpStrength(k) || k == T_COLON || k == T_COMMA || k == T_ARROW }

  /** Where an operand has to follow: behind those, behind an assignment or prefix operator, and behind an
      opening parenthesis or square bracket. */
  predicate WantsOperand(k: TokKind) { Between(k) || IsAssignOp(k) || IsPrefixOp(k) || k == T_LPAREN || k == T_LBRACKET }

  /** What belongs to the operand in front of it. */
  predicate BelongsLeft(k: TokKind) { Between(k) || k == T_RPAREN || k == T_RBRACKET }

  /** The operators of assignment that the filter does not know. */
  predicate Forgotten(k: TokKind) { k == T_SHLASSIGN || k == T_SHRASSIGN || k == T_QQASSIGN }

  lemma FilterKnowsGrammar(k: TokKind)
    ensures BelongsLeft(k) ==> NewlineFilter.ContinuesWith(k)
    ensures WantsOperand(k) ==> (NewlineFilter.NeedsOperand(k) <==> !Forgotten(k))
    ensures StartsExpr(k) ==> (NewlineFilter.ContinuesWith(k) <==> k == T_PLUS || k == T_MINUS || k == T_AMP || k == T_STAR)
    ensures StartsPostfix(k) && k != T_LPAREN ==> !NewlineFilter.NeedsOperand(k)
  {
  }

  lemma BreakBehind(front: seq<Token>, op: Token, n: Token, back: seq<Token>)
    requires n.kind == T_NEWLINE && NewlineFilter.NeedsOperand(op.kind)
    ensures Filter((front + [op]) + ([n] + back)) == Filter((front + [op]) + back)
  {
    NewlineFilter.ReachedPrev(START, front, op, back);
    NewlineFilter.InsertedNewline(START, front + [op], n, back);
  }

  lemma BreakInFront(front: seq<Token>, op: Token, n: Token, back: seq<Token>)
    requires n.kind == T_NEWLINE && op.kind != T_NEWLINE && NewlineFilter.ContinuesWith(op.kind)
    ensures Filter(front + ([n] + ([op] + back))) == Filter(front + ([op] + back))
  {
    assert NewlineFilter.NextKind([op] + back) == op.kind;
    NewlineFilter.InsertedNewline(START, front, n, [op] + back);
  }

  lemma SameTree(e: Expr, raw: seq<Token>)
    requires WellFormed(e) && Filter(raw) == Filter(TokensOf(Print(e, ASSIGN, End)))
    ensures ParseAssign(Open(Filter(raw))) == Parsed(e, End)
  {
    var s := Print(e, ASSIGN, End);
    OpenUndoesTokens(s);
    OnOneLine(e, ASSIGN, End);
    NothingToDrop(START, TokensOf(s));
    ReadsBackAs(e, s);
  }

  /** An expression may be broken in front of what belongs to the left, and behind what wants an operand but
      for three operators of assignment: it is read as the same tree. */
  lemma LineMayBreak(e: Expr, front: seq<Token>, op: Token, n: Token, back: seq<Token>)
    requires WellFormed(e) && TokensOf(Print(e, ASSIGN, End)) == (front + [op]) + back
    requires n.kind == T_NEWLINE
    ensures WantsOperand(op.kind) && !Forgotten(op.kind) ==> ParseAssign(Open(Filter((front + [op]) + ([n] + back)))) == Parsed(e, End)
    ensures BelongsLeft(op.kind) ==> ParseAssign(Open(Filter(front + ([n] + ([op] + back))))) == Parsed(e, End)
  {
    FilterKnowsGrammar(op.kind);
    if WantsOperand(op.kind) && !Forgotten(op.kind) {
      BreakBehind(front, op, n, back);
      SameTree(e, (front + [op]) + ([n] + back));
    }
    if BelongsLeft(op.kind) {
      BreakInFront(front, op, n, back);
      Regroup(front, [op], back);
      SameTree(e, front + ([n] + ([op] + back)));
    }
  }

  /** A newline behind such a token is swallowed if and only if the filter knows it, it stands inside
      parentheses or square brackets, or the line goes on with what belongs to the left. */
  lemma BreakBehindIff(front: seq<Token>, op: Token, n: Token, back: seq<Token>)
    requires n.kind == T_NEWLINE && WantsOperand(op.kind)
    ensures Filter((front + [op]) + ([n] + back)) == Filter((front + [op]) + back)
            <==> (!Forgotten(op.kind) || NewlineFilter.Top(NewlineFilter.StackAfter(NewlineFilter.DEPTH, [], front), 'p')
                  || NewlineFilter.ContinuesWith(NewlineFilter.NextKind(back)))
  {
    FilterKnowsGrammar(op.kind);
    NewlineFilter.ReachedPrev(START, front, op, back);
    NewlineFilter.ReachedStack(START, front + [op], back);
    NewlineFilter.StackAppend([], front, [op]);
    assert [op][1..] == [];
    NewlineFilter.InsertedNewline(START, front + [op], n, back);
  }

  /** `$x ??=`, a new line and `1`: the newline stays and the assignment is an error. */
  lemma BreakIsLost(x: Word, n: Token)
    requires n.kind == T_NEWLINE
    ensures var raw := [Var(x), Punct(T_QQASSIGN), n, Token(T_INT, OtherWord(""), 1)];
            Filter(raw) == raw && ParseAssign(Open(raw)) == Fatal
    ensures ParseAssign(Open([Var(x), Punct(T_QQASSIGN), Token(T_INT, OtherWord(""), 1)]))
         == Parsed(EAssign(T_QQASSIGN, EVar(x), EInt(1)), End)
  {
    var one := Token(T_INT, OtherWord(""), 1);
    var e := EAssign(T_QQASSIGN, EVar(x), EInt(1));
    var plain := [Var(x), Punct(T_QQASSIGN), one];
    assert plain[1..] == [Punct(T_QQASSIGN), one] && plain[1..][1..] == [one] && [one][1..] == [];
    assert Open([one]) == More(one, End);
    assert Open(plain[1..]) == Before(T_QQASSIGN, More(one, End));
    assert Open(plain) == More(Var(x), Before(T_QQASSIGN, More(one, End)));
    assert Print(EInt(1), TERNARY, End) == More(one, End);
    assert Print(EVar(x), TERNARY, Before(T_QQASSIGN, More(one, End))) == Open(plain);
    assert Bare(e, End) == Open(plain);
    AssignTrip(e, End);
    BrokenAssignment(x, n, one);
  }

  /** No expression starts with a newline. */
  lemma {:induction false} NoOperand(lvl: nat, s: Stream)
    requires lvl <= NLEVELS && s.Kind() == T_NEWLINE
    ensures ParseLevel(lvl, s) == Fatal
    decreases NLEVELS - lvl
  {
    if lvl < NLEVELS { NoOperand(lvl + 1, s); } else {
      assert ParsePostfix(s) == Fatal;
      assert ParseUnary(s) == ParsePostfix(s);
      assert ParsePow(s) == Fatal;
    }
  }

  lemma BrokenAssignment(x: Word, n: Token, one: Token)
    requires n.kind == T_NEWLINE && one.kind == T_INT
    ensures var raw := [Var(x), Punct(T_QQASSIGN), n, one]; Filter(raw) == raw && ParseAssign(Open(raw)) == Fatal
  {
    var raw := [Var(x), Punct(T_QQASSIGN), n, one];
    assert raw[1..] == [Punct(T_QQASSIGN), n, one] && raw[1..][1..] == [n, one] && raw[1..][1..][1..] == [one];
    assert Open([n, one]) == More(n, Open([one])) by { assert [n, one][1..] == [one]; }
    var behind := More(n, Open([one]));
    assert Open(raw) == Print(EVar(x), TERNARY, Before(T_QQASSIGN, behind));
    TernaryTrip(EVar(x), Before(T_QQASSIGN, behind));
    NoOperand(0, behind);
    FilterKeepsBreak(x, n, one);
  }

  lemma FilterKeepsBreak(x: Word, n: Token, one: Token)
    requires n.kind == T_NEWLINE && one.kind == T_INT
    ensures Filter([Var(x), Punct(T_QQASSIGN), n, one]) == [Var(x), Punct(T_QQASSIGN), n, one]
  {
    var raw := [Var(x), Punct(T_QQASSIGN), n, one];
    assert raw[1..] == [Punct(T_QQASSIGN), n, one] && raw[1..][1..] == [n, one] && raw[1..][1..][1..] == [one] && [one][1..] == [];
    var s2 := NewlineFilter.State([], T_QQASSIGN);
    assert NewlineFilter.Filter(NewlineFilter.State([], T_NEWLINE), [one]) == [one];
    assert NewlineFilter.Filter(s2, [n, one]) == [n] + [one];
    assert NewlineFilter.Filter(NewlineFilter.State([], T_VAR), raw[1..]) == [Punct(T_QQASSIGN)] + ([n] + [one]);
  }
}
