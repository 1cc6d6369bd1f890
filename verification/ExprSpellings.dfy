/** Tokens the printer never writes that the parser reads as trees it does write. */
module ExprSpellings {
  import opened Tokens
  import opened TypeSyntax
  import opened ExprSyntax
  import opened ExprRoundTrip
  import opened ExprImage

  // ----- Expressions -----

  lemma NameIsOperand(x: Word, rest: Stream)
    requires NoSuffix(rest)
    ensures ParseUnary(More(Name(x), rest)) == Parsed(EVar(x), rest)
  {
    var s := More(Name(x), rest);
    assert ParsePrimary(s) == Parsed(EVar(x), rest);
    assert ParseSuffixes(EVar(x), rest) == Parsed(EVar(x), rest);
    assert ParseUnary(s) == ParsePostfix(s);
  }

  lemma NameIsTernary(x: Word, rest: Stream)
    requires Stops(ASSIGN, rest)
    ensures ParseTernary(More(Name(x), rest)) == Parsed(EVar(x), rest)
  {
    NameIsOperand(x, rest);
    LiftLevel(0, More(Name(x), rest), EVar(x), rest);
  }

  /** A bare name is read as the variable of that name. */
  lemma NameIsVariable(x: Word, rest: Stream)
    requires Stops(ASSIGN, rest) && rest.Kind() != T_COLON
    ensures ParseAssign(More(Name(x), rest)) == Parsed(EVar(x), rest)
    ensures ParseAssign(More(Var(x), rest)) == Parsed(EVar(x), rest)
  {
    NameIsTernary(x, rest);
    AssignTrip(EVar(x), rest);
  }

  /** Parentheses around any expression change nothing. */
  lemma ParenthesesAreIgnored(e: Expr, rest: Stream)
    requires WellFormed(e) && Stops(ASSIGN, rest)
    ensures ParseAssign(Before(T_LPAREN, Bare(e, Before(T_RPAREN, rest)))) == Parsed(e, rest)
  {
    var inner := Bare(e, Before(T_RPAREN, rest));
    AssignTrip(e, Before(T_RPAREN, rest));
    FirstTokens(e, ASSIGN, Before(T_RPAREN, rest));
    assert ParsePrimary(Before(T_LPAREN, inner)) == ParseParen(inner);
    LiftParen(Before(T_LPAREN, inner), e, rest);
  }

  /** A comma behind the last argument changes nothing. */
  lemma {:induction false} CommaBehindArguments(args: seq<Expr>, rest: Stream)
    requires args != [] && WellFormedAll(args) && rest.Kind() == T_RPAREN
    ensures ParseArgList(PrintArgs(args, Before(T_COMMA, rest))) == Parsed(args, rest)
    decreases |args|
  {
    var tail := if |args| == 1 then rest else PrintArgs(args[1..], Before(T_COMMA, rest));
    FirstTokens(args[0], ASSIGN, Before(T_COMMA, tail));
    AssignTrip(args[0], Before(T_COMMA, tail));
    if |args| > 1 { CommaBehindArguments(args[1..], rest); }
    ArgumentStep(args, Print(args[0], ASSIGN, Before(T_COMMA, tail)), tail, rest);
  }

  lemma ArgumentStep(args: seq<Expr>, s: Stream, tail: Stream, rest: Stream)
    requires args != [] && StartsExpr(s.Kind()) && ParseAssign(s) == Parsed(args[0], Before(T_COMMA, tail))
    requires ParseArgList(tail) == Parsed(args[1..], rest)
    ensures ParseArgList(s) == Parsed(args, rest)
  {
    assert args == [args[0]] + args[1..];
  }

  /** Nor does one behind the last element of a tuple. */
  lemma {:induction false} CommaBehindElements(es: seq<Expr>, rest: Stream)
    requires es != [] && WellFormedAll(es) && rest.Kind() == T_RPAREN
    ensures ParseElems(Before(T_COMMA, PrintArgs(es, Before(T_COMMA, rest)))) == Parsed(es, rest)
    decreases |es|
  {
    var tail := if |es| == 1 then Before(T_COMMA, rest) else Before(T_COMMA, PrintArgs(es[1..], Before(T_COMMA, rest)));
    FirstTokens(es[0], ASSIGN, tail);
    AssignTrip(es[0], tail);
    if |es| > 1 { CommaBehindElements(es[1..], rest); }
    ElementStep(es, Print(es[0], ASSIGN, tail), tail, rest);
  }

  lemma ElementStep(es: seq<Expr>, s: Stream, tail: Stream, rest: Stream)
    requires es != [] && StartsExpr(s.Kind()) && ParseAssign(s) == Parsed(es[0], tail)
    requires ParseElems(tail) == Parsed(es[1..], rest)
    ensures ParseElems(Before(T_COMMA, s)) == Parsed(es, rest)
  {
    assert es == [es[0]] + es[1..];
  }

  /** A tuple of two elements and more, with a comma behind the last. */
  lemma TupleMayEndInComma(es: seq<Expr>, rest: Stream)
    requires |es| > 1 && WellFormedAll(es)
    ensures ParsePrimary(Before(T_LPAREN, PrintArgs(es, Before(T_COMMA, Before(T_RPAREN, rest))))) == Parsed(ETuple(es), rest)
  {
    var after := Before(T_RPAREN, rest);
    var tail := PrintArgs(es[1..], Before(T_COMMA, after));
    FirstTokens(es[0], ASSIGN, Before(T_COMMA, tail));
    AssignTrip(es[0], Before(T_COMMA, tail));
    CommaBehindElements(es[1..], after);
    TupleStep(es, Print(es[0], ASSIGN, Before(T_COMMA, tail)), tail, rest);
  }

  // ----- Types -----

  /** The type a name without anything in angle brackets stands for, written out. */
  function Full(k: NameKind): Type {
    match k
    case NArray => TArray(TPrim(Mixed))
    case NVec => TVec(TPrim(Mixed))
    case NSet => TSet(TPrim(Mixed))
    case NMap => TMap(TPrim(Mixed), TPrim(Mixed))
    case NOption => TOption(TPrim(Mixed))
    case _ => TResult(TPrim(Mixed), TPrim(Text))
  }

  /** `Vec` is read as `Vec<mixed>`, and so on, in any spelling of the name. */
  lemma NameStandsForFullType(k: NameKind, spelling: nat, rest: Stream)
    requires k == NArray || k == NVec || k == NSet || k == NMap || k == NOption || k == NResult
    requires AfterType(rest) && rest.Kind() != T_LT
    ensures ParseType(More(Name(TypeWord(k, spelling)), rest)) == ParseType(PrintType(Full(k), rest)) == Parsed(Full(k), rest)
  {
    TypeRoundTrip(Full(k), rest);
    NameStep(TypeWord(k, spelling), rest);
  }

  /** A result without an error type has a string for it. */
  lemma ErrorTypeMayBeLeftOut(ok: Type, rest: Stream)
    requires Printable(ok) && AfterType(rest)
    ensures ParseType(Angled(TypeName(NResult), PrintType(ok, Before(T_GT, rest)))) == Parsed(TResult(ok, TPrim(Text)), rest)
  {
    var inner := PrintType(ok, Before(T_GT, rest));
    TypeRoundTrip(ok, Before(T_GT, rest));
    assert ParseType(Angled(TypeName(NResult), inner)) == ParseResult(inner);
  }

  /** A function type may be spelled with any of its words. */
  lemma FunctionTypeSpellings(ps: seq<Type>, w: Word, rest: Stream)
    requires KindOfName(w).NCallable? || KindOfName(w).NFn?
    ensures ParseType(More(Name(w), Before(T_LPAREN, PrintParams(ps, Before(T_RPAREN, rest)))))
         == ParseType(Before(T_KW_FN, Before(T_LPAREN, PrintParams(ps, Before(T_RPAREN, rest)))))
  {
    var params := PrintParams(ps, Before(T_RPAREN, rest));
    NameStep(w, Before(T_LPAREN, params));
    assert ParseType(Before(T_KW_FN, Before(T_LPAREN, params))) == ParseFn(params);
  }
}
