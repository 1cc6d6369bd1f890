/** Parsing undoes printing, for every expression tree the parser can build. */
module ExprRoundTrip {
  import opened Tokens
  import opened TypeSyntax
  import opened ExprSyntax

  // ----- What may follow an expression -----

  /** Not the start of another `[...]`, `->`, `(...)`, `::`, cast or type test. */
  predicate NoSuffix(s: Stream) {
    && s.Kind() != T_LBRACKET && s.Kind() != T_ARROW && s.Kind() != T_COLONCOLON && s.Kind() != T_LPAREN
    && s.Kind() != T_KW_AS && !s.IsIdent(AsWord) && !s.IsIdent(IsWord)
  }

  /** An operand of strength p ends in front of s. */
  predicate Stops(p: int, s: Stream) { NoSuffix(s) && OpStrength(s.Kind()) < p }

  /** What stands in front of s would not be read as the variable of a typed declaration. */
  predicate NoDecl(e: Expr, s: Stream) {
    EndsInVar(e) ==> !(s.Kind() == T_COLON && StartsType(s.Next().Kind()))
  }

  // ----- The first tokens of a printed expression -----

  /** Tokens an operand of postfix strength can start with. */
  predicate StartsPostfix(k: TokKind) {
    k == T_INT || k == T_STR || k == T_HPHP_TRUE || k == T_HPHP_FALSE || k == T_HPHP_NULL
    || k == T_VAR || k == T_IDENT || k == T_LPAREN
  }

  predicate StartsExpr(k: TokKind) { StartsPostfix(k) || IsPrefixOp(k) || k == T_AMP || k == T_STAR }

  /** A leading variable is followed by something that is no colon, unless the variable is everything. */
  predicate VarGoesOn(e: Expr, s: Stream, rest: Stream) {
    s.Kind() == T_VAR ==> (e.EVar? && s.Next() == rest) || s.Next().Kind() != T_COLON
  }

  lemma {:induction false} FirstTokens(e: Expr, p: int, rest: Stream)
    requires WellFormed(e)
    ensures StartsExpr(Print(e, p, rest).Kind())
    ensures p >= POSTFIX ==> StartsPostfix(Print(e, p, rest).Kind())
    ensures p > ASSIGN ==> VarGoesOn(e, Print(e, p, rest), rest)
    decreases e, 2
  {
    if Strength(e) >= p { FirstTokensBare(e, rest); }
  }

  lemma {:induction false} FirstTokensBare(e: Expr, rest: Stream)
    requires WellFormed(e)
    ensures StartsExpr(Bare(e, rest).Kind())
    ensures Strength(e) >= POSTFIX ==> StartsPostfix(Bare(e, rest).Kind())
    ensures Strength(e) > ASSIGN || e.EAssign? ==> VarGoesOn(e, Bare(e, rest), rest)
    decreases e, 1
  {
    if Strength(e) == POSTFIX { FirstTokensSuffix(e, rest); }
    else if e.EBin? {
      if e.op == T_POW { FirstTokens(e.l, UNARY, Before(T_POW, Print(e.r, POWER, rest))); }
      else if e.op == T_QUESTIONQUESTION { FirstTokens(e.l, BINARY, Before(e.op, Print(e.r, TERNARY, rest))); }
      else { FirstTokens(e.l, OpStrength(e.op), Before(e.op, Print(e.r, OpStrength(e.op) + 1, rest))); }
    } else if e.ETern? {
      FirstTokens(e.cond, BINARY, Before(T_QUESTION, PrintThen(e.thn, Before(T_COLON, Print(e.els, TERNARY, rest)))));
    } else if e.EAssign? {
      FirstTokens(e.target, TERNARY, Before(e.op, Print(e.value, if e.op == T_QQASSIGN then TERNARY else ASSIGN, rest)));
    }
  }

  lemma {:induction false} FirstTokensSuffix(e: Expr, rest: Stream)
    requires WellFormed(e) && Strength(e) == POSTFIX
    ensures StartsPostfix(Bare(e, rest).Kind()) && VarGoesOn(e, Bare(e, rest), rest)
    decreases e, 0
  {
    match e
    case ECall(fn, args) => FirstTokens(fn, CalleeStrength(fn), Before(T_LPAREN, PrintArgs(args, Before(T_RPAREN, rest))));
    case EIndex(o, i) => FirstTokens(o, POSTFIX, Before(T_LBRACKET, Print(i, ASSIGN, Before(T_RBRACKET, rest))));
    case EAppend(o) => FirstTokens(o, POSTFIX, Before(T_LBRACKET, Before(T_RBRACKET, rest)));
    case EField(o, name) => FirstTokens(o, POSTFIX, Before(T_ARROW, More(Name(name), rest)));
    case EMethod(o, name, args) =>
      FirstTokens(o, POSTFIX, Before(T_ARROW, More(Name(name), Before(T_LPAREN, PrintArgs(args, Before(T_RPAREN, rest))))));
    case EBin(_, _, _) =>
  }

  /** Printed in front of anything, the operand of a borrow starts with a variable or an ampersand. */
  lemma {:induction false} BorrowStart(e: Expr, p: int, rest: Stream)
    requires (Borrowable(e) && p <= UNARY) || (BorrowableObject(e) && p <= POSTFIX)
    ensures var k := Print(e, p, rest).Kind(); k == T_VAR || k == T_AMP
    decreases e
  {
    match e
    case ECall(fn, args) => BorrowStart(fn, POSTFIX, Before(T_LPAREN, PrintArgs(args, Before(T_RPAREN, rest))));
    case EIndex(o, i) => BorrowStart(o, POSTFIX, Before(T_LBRACKET, Print(i, ASSIGN, Before(T_RBRACKET, rest))));
    case EAppend(o) => BorrowStart(o, POSTFIX, Before(T_LBRACKET, Before(T_RBRACKET, rest)));
    case EField(o, name) => BorrowStart(o, POSTFIX, Before(T_ARROW, More(Name(name), rest)));
    case EMethod(o, name, args) =>
      BorrowStart(o, POSTFIX, Before(T_ARROW, More(Name(name), Before(T_LPAREN, PrintArgs(args, Before(T_RPAREN, rest))))));
    case _ =>
  }

  // ----- Climbing the levels: a primary expression is an expression of every strength -----

  lemma {:induction false} LiftLevel(lvl: nat, s: Stream, e: Expr, rest: Stream)
    requires lvl <= NLEVELS && ParsePow(s) == Parsed(e, rest) && Stops(BINARY, rest)
    ensures ParseLevel(lvl, s) == Parsed(e, rest)
    decreases NLEVELS - lvl
  {
    if lvl < NLEVELS { LiftLevel(lvl + 1, s, e, rest); }
  }

  /** An expression in parentheses. */
  lemma LiftParen(s: Stream, e: Expr, rest: Stream)
    requires s.Kind() == T_LPAREN && ParsePrimary(s) == Parsed(e, rest) && Stops(ASSIGN, rest)
    ensures ParseAssign(s) == Parsed(e, rest)
  {
    assert ParseSuffixes(e, rest) == Parsed(e, rest);
    assert ParsePostfix(s) == Parsed(e, rest);
    assert ParseUnary(s) == ParsePostfix(s);
    assert ParsePow(s) == Parsed(e, rest);
    LiftLevel(0, s, e, rest);
    assert ParseTernary(s) == Parsed(e, rest);
  }

  // ----- Steps: what parsing makes of an operator between parsed operands -----

  lemma LoopEnds(lvl: nat, e: Expr, rest: Stream)
    requires lvl < NLEVELS && OpStrength(rest.Kind()) != BINARY + lvl
    ensures ParseLoop(lvl, e, rest) == Parsed(e, rest)
  {
  }

  // ----- The round trip, strength by strength -----

  /** The next rung of the recursion: downwards to the strength of e, then upwards to the parentheses around it. */
  function Rung(e: Expr, p: int): int { if p <= Strength(e) then 20 - p else 60 - p }

  lemma {:induction false} AssignTrip(e: Expr, rest: Stream)
    requires WellFormed(e) && Stops(ASSIGN, rest) && NoDecl(e, rest)
    ensures ParseAssign(Print(e, ASSIGN, rest)) == Parsed(e, rest)
    decreases e, Rung(e, ASSIGN), 1
  {
    if e.EAssign? { AssignOpTrip(e, rest); }
    else if e.EDecl? || e.EDeclInit? { DeclTrip(e, rest); }
    else {
      NoDeclaration(e, rest);
      TernaryTrip(e, rest);
    }
  }

  lemma NoDeclaration(e: Expr, rest: Stream)
    requires WellFormed(e) && Strength(e) > ASSIGN && NoDecl(e, rest)
    ensures Print(e, ASSIGN, rest) == Print(e, TERNARY, rest) == Bare(e, rest)
    ensures !StartsDecl(Bare(e, rest))
  {
    FirstTokensBare(e, rest);
  }

  lemma {:induction false} AssignOpTrip(e: Expr, rest: Stream)
    requires e.EAssign? && WellFormed(e) && Stops(ASSIGN, rest) && NoDecl(e, rest)
    ensures ParseAssign(Print(e, ASSIGN, rest)) == Parsed(e, rest)
    decreases e, 0, 0
  {
    var right := Print(e.value, if e.op == T_QQASSIGN then TERNARY else ASSIGN, rest);
    var s := Print(e.target, TERNARY, Before(e.op, right));
    FirstTokens(e.target, TERNARY, Before(e.op, right));
    assert !StartsDecl(s);
    TernaryTrip(e.target, Before(e.op, right));
    if e.op == T_QQASSIGN { TernaryTrip(e.value, rest); } else { AssignTrip(e.value, rest); }
  }

  lemma {:induction false} DeclTrip(e: Expr, rest: Stream)
    requires (e.EDecl? || e.EDeclInit?) && WellFormed(e) && Stops(ASSIGN, rest) && NoDecl(e, rest)
    ensures ParseAssign(Print(e, ASSIGN, rest)) == Parsed(e, rest)
    decreases e, 0, 0
  {
    if e.EDecl? {
      TypeRoundTrip(e.ty, rest);
      DeclStep(e, PrintType(e.ty, rest), rest, rest);
    } else {
      var after := Before(T_ASSIGN, Print(e.value, ASSIGN, rest));
      TypeRoundTrip(e.ty, after);
      AssignTrip(e.value, rest);
      DeclStep(e, PrintType(e.ty, after), after, rest);
    }
  }

  lemma DeclStep(e: Expr, ty: Stream, after: Stream, rest: Stream)
    requires e.EDecl? || e.EDeclInit?
    requires StartsType(ty.Kind()) && ParseType(ty) == Parsed(e.ty, after)
    requires e.EDecl? ==> after == rest && rest.Kind() != T_ASSIGN
    requires e.EDeclInit? ==> after.Kind() == T_ASSIGN && ParseAssign(after.Next()) == Parsed(e.value, rest)
    ensures ParseAssign(More(Var(e.x), Before(T_COLON, ty))) == Parsed(e, rest)
  {
    var s := More(Var(e.x), Before(T_COLON, ty));
    assert StartsDecl(s);
    assert ParseAssign(s) == ParseDecl(e.x, ty);
  }

  lemma {:induction false} TernaryTrip(e: Expr, rest: Stream)
    requires WellFormed(e) && Stops(TERNARY, rest)
    ensures ParseTernary(Print(e, TERNARY, rest)) == Parsed(e, rest)
    decreases e, Rung(e, TERNARY), 0
  {
    if Strength(e) != TERNARY {
      LevelTrip(0, e, rest);
      LoopEnds(0, e, rest);
    } else if e.EBin? {
      var right := Print(e.r, TERNARY, rest);
      LevelTrip(0, e.l, Before(T_QUESTIONQUESTION, right));
      LoopEnds(0, e.l, Before(T_QUESTIONQUESTION, right));
      TernaryTrip(e.r, rest);
      CoalesceStep(Print(e.l, BINARY, Before(T_QUESTIONQUESTION, right)), e.l, e.r, right, rest);
    } else {
      var right := Print(e.els, TERNARY, rest);
      var branch := PrintThen(e.thn, Before(T_COLON, right));
      LevelTrip(0, e.cond, Before(T_QUESTION, branch));
      LoopEnds(0, e.cond, Before(T_QUESTION, branch));
      ThenTrip(e.thn, Before(T_COLON, right));
      TernaryTrip(e.els, rest);
      ChooseStep(Print(e.cond, BINARY, Before(T_QUESTION, branch)), e, branch, right, rest);
    }
  }

  lemma CoalesceStep(s: Stream, l: Expr, r: Expr, right: Stream, rest: Stream)
    requires ParseLevel(0, s) == Parsed(l, Before(T_QUESTIONQUESTION, right)) && ParseTernary(right) == Parsed(r, rest)
    ensures ParseTernary(s) == Parsed(EBin(T_QUESTIONQUESTION, l, r), rest)
  {
  }

  lemma ChooseStep(s: Stream, e: Expr, branch: Stream, right: Stream, rest: Stream)
    requires e.ETern? && ParseLevel(0, s) == Parsed(e.cond, Before(T_QUESTION, branch))
    requires ParseAssign(branch) == Parsed(e.thn, Before(T_COLON, right)) && ParseTernary(right) == Parsed(e.els, rest)
    ensures ParseTernary(s) == Parsed(e, rest)
  {
    assert ParseTernary(s) == ParseBranches(e.cond, branch);
  }

  lemma {:induction false} ThenTrip(e: Expr, rest: Stream)
    requires WellFormed(e) && rest.Kind() == T_COLON
    ensures ParseAssign(PrintThen(e, rest)) == Parsed(e, rest)
    decreases e, 61, 0
  {
    if EndsInVar(e) {
      ParenTrip(e, rest);
      LiftParen(PrintThen(e, rest), e, rest);
    } else {
      AssignTrip(e, rest);
    }
  }

  lemma {:induction false} ParenTrip(e: Expr, rest: Stream)
    requires WellFormed(e)
    ensures ParsePrimary(Before(T_LPAREN, Bare(e, Before(T_RPAREN, rest)))) == Parsed(e, rest)
    decreases e, 22, 0
  {
    var inner := Bare(e, Before(T_RPAREN, rest));
    FirstTokensBare(e, Before(T_RPAREN, rest));
    AssignTrip(e, Before(T_RPAREN, rest));
    ParenStep(e, inner, rest);
  }

  lemma ParenStep(e: Expr, inner: Stream, rest: Stream)
    requires StartsExpr(inner.Kind()) && ParseAssign(inner) == Parsed(e, Before(T_RPAREN, rest))
    ensures ParsePrimary(Before(T_LPAREN, inner)) == Parsed(e, rest)
  {
    assert ParseParen(inner) == Parsed(e, rest);
  }

  lemma {:induction false} LevelTrip(lvl: nat, e: Expr, rest: Stream)
    requires lvl < NLEVELS && WellFormed(e) && Stops(BINARY + lvl + 1, rest)
    ensures ParseLevel(lvl, Print(e, BINARY + lvl, rest)) == ParseLoop(lvl, e, rest)
    decreases e, Rung(e, BINARY + lvl), 0
  {
    if Strength(e) != BINARY + lvl {
      TighterTrip(lvl, e, rest);
    } else {
      PrintBinary(lvl, e, rest);
      var right := Print(e.r, BINARY + lvl + 1, rest);
      LevelTrip(lvl, e.l, Before(e.op, right));
      TighterTrip(lvl, e.r, rest);
    }
  }

  lemma PrintBinary(lvl: nat, e: Expr, rest: Stream)
    requires lvl < NLEVELS && WellFormed(e) && Strength(e) == BINARY + lvl
    ensures e.EBin? && OpStrength(e.op) == BINARY + lvl
    ensures Print(e, BINARY + lvl, rest) == Print(e.l, BINARY + lvl, Before(e.op, Print(e.r, BINARY + lvl + 1, rest)))
  {
  }

  /** One level tighter than lvl. */
  lemma {:induction false} TighterTrip(lvl: nat, e: Expr, rest: Stream)
    requires lvl < NLEVELS && WellFormed(e) && Stops(BINARY + lvl + 1, rest)
    ensures ParseLevel(lvl + 1, Print(e, BINARY + lvl + 1, rest)) == Parsed(e, rest)
    decreases e, Rung(e, BINARY + lvl + 1), 1
  {
    if lvl + 1 < NLEVELS {
      LevelTrip(lvl + 1, e, rest);
      LoopEnds(lvl + 1, e, rest);
    } else {
      PowTrip(e, rest);
    }
  }

  lemma {:induction false} PowTrip(e: Expr, rest: Stream)
    requires WellFormed(e) && Stops(POWER, rest)
    ensures ParsePow(Print(e, POWER, rest)) == Parsed(e, rest)
    decreases e, Rung(e, POWER), 0
  {
    PrintPower(e, rest);
    if Strength(e) != POWER {
      UnaryTrip(e, rest);
    } else {
      var right := Print(e.r, POWER, rest);
      UnaryTrip(e.l, Before(T_POW, right));
      PowTrip(e.r, rest);
      PowStep(Print(e.l, UNARY, Before(T_POW, right)), e.l, e.r, right, rest);
    }
  }

  lemma PrintPower(e: Expr, rest: Stream)
    requires WellFormed(e)
    ensures if Strength(e) == POWER
            then e.EBin? && e.op == T_POW && Print(e, POWER, rest) == Print(e.l, UNARY, Before(T_POW, Print(e.r, POWER, rest)))
            else Print(e, POWER, rest) == Print(e, UNARY, rest)
  {
  }

  lemma PowStep(s: Stream, l: Expr, r: Expr, right: Stream, rest: Stream)
    requires ParseUnary(s) == Parsed(l, Before(T_POW, right)) && ParsePow(right) == Parsed(r, rest)
    ensures ParsePow(s) == Parsed(EBin(T_POW, l, r), rest)
  {
  }

  lemma {:induction false} UnaryTrip(e: Expr, rest: Stream)
    requires WellFormed(e) && Stops(UNARY, rest)
    ensures ParseUnary(Print(e, UNARY, rest)) == Parsed(e, rest)
    decreases e, Rung(e, UNARY), 0
  {
    match e
    case EUn(op, o) =>
      UnaryTrip(o, rest);
    case EDeref(o) =>
      UnaryTrip(o, rest);
    case EBorrow(o) =>
      UnaryTrip(o, rest);
      BorrowStart(o, UNARY, rest);
    case _ =>
      OperandTrip(e, rest);
  }

  lemma {:induction false} OperandTrip(e: Expr, rest: Stream)
    requires WellFormed(e) && Stops(UNARY, rest) && Strength(e) != UNARY
    ensures ParseUnary(Print(e, UNARY, rest)) == Parsed(e, rest)
    decreases e, Rung(e, POSTFIX), 1
  {
    FirstTokens(e, POSTFIX, rest);
    PostfixTrip(e, rest);
    assert Print(e, UNARY, rest) == Print(e, POSTFIX, rest);
  }

  /** A postfix operand, whatever suffixes follow; but a field in front of an argument list would be a method. */
  lemma {:induction false} PostfixTrip(e: Expr, rest: Stream)
    requires WellFormed(e) && (e.EField? ==> rest.Kind() != T_LPAREN)
    ensures ParsePostfix(Print(e, POSTFIX, rest)) == ParseSuffixes(e, rest)
    decreases e, Rung(e, POSTFIX), 0
  {
    if Strength(e) == ATOM { AtomTrip(e, rest); }
    else if Strength(e) == POSTFIX { SuffixTrip(e, rest); }
    else {
      ParenTrip(e, rest);
      PrimaryStep(Print(e, POSTFIX, rest), e, rest);
    }
  }

  lemma {:induction false} SuffixTrip(e: Expr, rest: Stream)
    requires WellFormed(e) && Strength(e) == POSTFIX && (e.EField? ==> rest.Kind() != T_LPAREN)
    ensures ParsePostfix(Bare(e, rest)) == ParseSuffixes(e, rest)
    decreases e, 3, 0
  {
    match e
    case EIndex(o, i) => IndexTrip(o, i, rest);
    case EAppend(o) =>
      PostfixTrip(o, Before(T_LBRACKET, Before(T_RBRACKET, rest)));
      AppendStep(o, rest);
    case EField(o, name) =>
      PostfixTrip(o, Before(T_ARROW, More(Name(name), rest)));
      FieldStep(o, name, rest);
    case EMethod(o, name, args) => MethodTrip(o, name, args, rest);
    case ECall(fn, args) => CallTrip(fn, args, rest);
    case EBin(_, _, _) =>
  }

  lemma {:induction false} IndexTrip(o: Expr, i: Expr, rest: Stream)
    requires WellFormed(o) && WellFormed(i)
    ensures ParsePostfix(Bare(EIndex(o, i), rest)) == ParseSuffixes(EIndex(o, i), rest)
    decreases EIndex(o, i), 1, 0
  {
    var inner := Print(i, ASSIGN, Before(T_RBRACKET, rest));
    assert Bare(EIndex(o, i), rest) == Print(o, POSTFIX, Before(T_LBRACKET, inner));
    PostfixTrip(o, Before(T_LBRACKET, inner));
    FirstTokens(i, ASSIGN, Before(T_RBRACKET, rest));
    AssignTrip(i, Before(T_RBRACKET, rest));
    IndexStep(o, i, inner, rest);
  }

  lemma {:induction false} MethodTrip(o: Expr, name: Word, args: seq<Expr>, rest: Stream)
    requires WellFormed(o) && WellFormedAll(args)
    ensures ParsePostfix(Bare(EMethod(o, name, args), rest)) == ParseSuffixes(EMethod(o, name, args), rest)
    decreases EMethod(o, name, args), 1, 0
  {
    var inner := PrintArgs(args, Before(T_RPAREN, rest));
    var call := Before(T_ARROW, More(Name(name), Before(T_LPAREN, inner)));
    assert Bare(EMethod(o, name, args), rest) == Print(o, POSTFIX, call);
    PostfixTrip(o, call);
    ArgsTrip(args, rest);
    MethodStep(o, name, args, inner, rest);
  }

  lemma {:induction false} CallTrip(fn: Expr, args: seq<Expr>, rest: Stream)
    requires WellFormed(fn) && WellFormedAll(args)
    ensures ParsePostfix(Bare(ECall(fn, args), rest)) == ParseSuffixes(ECall(fn, args), rest)
    decreases ECall(fn, args), 1, 0
  {
    var inner := PrintArgs(args, Before(T_RPAREN, rest));
    assert Bare(ECall(fn, args), rest) == Print(fn, CalleeStrength(fn), Before(T_LPAREN, inner));
    CalleeTrip(fn, Before(T_LPAREN, inner));
    ArgsTrip(args, rest);
    CallStep(fn, args, inner, rest);
  }

  lemma {:induction false} CalleeTrip(fn: Expr, rest: Stream)
    requires WellFormed(fn)
    ensures ParsePostfix(Print(fn, CalleeStrength(fn), rest)) == ParseSuffixes(fn, rest)
    decreases fn, 70, 0
  {
    if fn.EField? {
      ParenTrip(fn, rest);
      PrimaryStep(Print(fn, ATOM, rest), fn, rest);
    } else {
      PostfixTrip(fn, rest);
    }
  }

  lemma {:induction false} AtomTrip(e: Expr, rest: Stream)
    requires WellFormed(e) && Strength(e) == ATOM
    ensures ParsePostfix(Bare(e, rest)) == ParseSuffixes(e, rest)
    decreases e, 2, 0
  {
    match e
    case EVar(x) => VarStep(x, rest);
    case ETuple(es) =>
      TupleTrip(es, rest);
      PrimaryStep(Bare(e, rest), e, rest);
    case ECallName(f, args) =>
      ArgsTrip(args, rest);
      NameCallStep(f, args, PrintArgs(args, Before(T_RPAREN, rest)), rest);
      PrimaryStep(Bare(e, rest), e, rest);
    case _ =>
      PrimaryStep(Bare(e, rest), e, rest);
  }

  lemma PrimaryStep(s: Stream, e: Expr, rest: Stream)
    requires ParsePrimary(s) == Parsed(e, rest)
    ensures ParsePostfix(s) == ParseSuffixes(e, rest)
  {
  }

  /** A variable in front of an argument list: the primary reads the call, the result is the same. */
  lemma VarStep(x: Word, rest: Stream)
    ensures ParsePostfix(More(Var(x), rest)) == ParseSuffixes(EVar(x), rest)
  {
    if rest.Kind() == T_LPAREN {
      var a := ParseArgs(rest.Next());
      assert ParsePrimary(More(Var(x), rest)) == if a.Parsed? then Parsed(ECall(EVar(x), a.value), a.rest) else a.Failed();
      assert ParseSuffixes(EVar(x), rest) == if a.Parsed? then ParseSuffixes(ECall(EVar(x), a.value), a.rest) else a.Failed();
    }
  }

  lemma NameCallStep(f: Word, args: seq<Expr>, inner: Stream, rest: Stream)
    requires ParseArgs(inner) == Parsed(args, rest)
    ensures ParsePrimary(More(Name(f), Before(T_LPAREN, inner))) == Parsed(ECallName(f, args), rest)
  {
  }

  lemma IndexStep(o: Expr, i: Expr, inner: Stream, rest: Stream)
    requires inner.Kind() != T_RBRACKET && ParseAssign(inner) == Parsed(i, Before(T_RBRACKET, rest))
    ensures ParseSuffixes(o, Before(T_LBRACKET, inner)) == ParseSuffixes(EIndex(o, i), rest)
  {
  }

  lemma FieldStep(o: Expr, name: Word, rest: Stream)
    requires rest.Kind() != T_LPAREN
    ensures ParseSuffixes(o, Before(T_ARROW, More(Name(name), rest))) == ParseSuffixes(EField(o, name), rest)
  {
    assert ParseSuffixes(o, Before(T_ARROW, More(Name(name), rest))) == ParseMember(o, name, rest);
  }

  lemma AppendStep(o: Expr, rest: Stream)
    ensures ParseSuffixes(o, Before(T_LBRACKET, Before(T_RBRACKET, rest))) == ParseSuffixes(EAppend(o), rest)
  {
  }

  lemma CallStep(fn: Expr, args: seq<Expr>, inner: Stream, rest: Stream)
    requires ParseArgs(inner) == Parsed(args, rest)
    ensures ParseSuffixes(fn, Before(T_LPAREN, inner)) == ParseSuffixes(ECall(fn, args), rest)
  {
  }

  lemma MethodStep(o: Expr, name: Word, args: seq<Expr>, inner: Stream, rest: Stream)
    requires ParseArgs(inner) == Parsed(args, rest)
    ensures ParseSuffixes(o, Before(T_ARROW, More(Name(name), Before(T_LPAREN, inner))))
         == ParseSuffixes(EMethod(o, name, args), rest)
  {
    assert ParseSuffixes(o, Before(T_ARROW, More(Name(name), Before(T_LPAREN, inner))))
        == ParseMember(o, name, Before(T_LPAREN, inner));
  }

  lemma {:induction false} ArgsTrip(args: seq<Expr>, rest: Stream)
    requires WellFormedAll(args)
    ensures ParseArgs(PrintArgs(args, Before(T_RPAREN, rest))) == Parsed(args, rest)
    decreases args, 100, 1
  {
    ArgListTrip(args, Before(T_RPAREN, rest));
  }

  lemma {:induction false} ArgListTrip(args: seq<Expr>, rest: Stream)
    requires WellFormedAll(args) && rest.Kind() == T_RPAREN
    ensures ParseArgList(PrintArgs(args, rest)) == Parsed(args, rest)
    decreases args, 100, 0
  {
    if |args| == 1 {
      FirstTokens(args[0], ASSIGN, rest);
      AssignTrip(args[0], rest);
      LastArgStep(args, Print(args[0], ASSIGN, rest), rest);
    } else if args != [] {
      var tail := PrintArgs(args[1..], rest);
      FirstTokens(args[0], ASSIGN, Before(T_COMMA, tail));
      AssignTrip(args[0], Before(T_COMMA, tail));
      ArgListTrip(args[1..], rest);
      NextArgStep(args, Print(args[0], ASSIGN, Before(T_COMMA, tail)), tail, rest);
    }
  }

  lemma LastArgStep(args: seq<Expr>, s: Stream, rest: Stream)
    requires |args| == 1 && StartsExpr(s.Kind()) && rest.Kind() == T_RPAREN && ParseAssign(s) == Parsed(args[0], rest)
    ensures ParseArgList(s) == Parsed(args, rest)
  {
    assert args == [args[0]];
  }

  lemma NextArgStep(args: seq<Expr>, s: Stream, tail: Stream, rest: Stream)
    requires args != [] && StartsExpr(s.Kind())
    requires ParseAssign(s) == Parsed(args[0], Before(T_COMMA, tail)) && ParseArgList(tail) == Parsed(args[1..], rest)
    ensures ParseArgList(s) == Parsed(args, rest)
  {
    assert args == [args[0]] + args[1..];
  }

  lemma {:induction false} TupleTrip(es: seq<Expr>, rest: Stream)
    requires WellFormedAll(es)
    ensures ParsePrimary(Bare(ETuple(es), rest)) == Parsed(ETuple(es), rest)
    decreases es, 100, 2
  {
    if es != [] {
      var after := Before(T_RPAREN, rest);
      var tail := if |es| == 1 then after else PrintArgs(es[1..], after);
      var inner := Print(es[0], ASSIGN, Before(T_COMMA, tail));
      FirstTokens(es[0], ASSIGN, Before(T_COMMA, tail));
      AssignTrip(es[0], Before(T_COMMA, tail));
      if |es| > 1 { ElemsTrip(es[1..], after); }
      assert Bare(ETuple(es), rest) == Before(T_LPAREN, inner);
      TupleStep(es, inner, tail, rest);
    }
  }

  lemma TupleStep(es: seq<Expr>, inner: Stream, tail: Stream, rest: Stream)
    requires es != [] && inner.Kind() != T_RPAREN && ParseAssign(inner) == Parsed(es[0], Before(T_COMMA, tail))
    requires ParseElems(Before(T_COMMA, tail)) == Parsed(es[1..], Before(T_RPAREN, rest))
    ensures ParsePrimary(Before(T_LPAREN, inner)) == Parsed(ETuple(es), rest)
  {
    assert es == [es[0]] + es[1..];
    TupleParen(inner, es[0], es[1..], Before(T_COMMA, tail), rest);
  }

  lemma TupleParen(inner: Stream, first: Expr, more: seq<Expr>, comma: Stream, rest: Stream)
    requires inner.Kind() != T_RPAREN && comma.Kind() == T_COMMA
    requires ParseAssign(inner) == Parsed(first, comma) && ParseElems(comma) == Parsed(more, Before(T_RPAREN, rest))
    ensures ParsePrimary(Before(T_LPAREN, inner)) == Parsed(ETuple([first] + more), rest)
  {
    assert ParsePrimary(Before(T_LPAREN, inner)) == ParseParen(inner);
  }

  lemma {:induction false} ElemsTrip(es: seq<Expr>, rest: Stream)
    requires es != [] && WellFormedAll(es) && rest.Kind() == T_RPAREN
    ensures ParseElems(Before(T_COMMA, PrintArgs(es, rest))) == Parsed(es, rest)
    decreases es, 100, 0
  {
    var tail := if |es| == 1 then rest else Before(T_COMMA, PrintArgs(es[1..], rest));
    FirstTokens(es[0], ASSIGN, tail);
    AssignTrip(es[0], tail);
    if |es| > 1 { ElemsTrip(es[1..], rest); }
    ElemStep(es, Print(es[0], ASSIGN, tail), tail, rest);
  }

  lemma ElemStep(es: seq<Expr>, s: Stream, tail: Stream, rest: Stream)
    requires es != [] && StartsExpr(s.Kind()) && ParseAssign(s) == Parsed(es[0], tail)
    requires if |es| == 1 then tail == rest && rest.Kind() == T_RPAREN else ParseElems(tail) == Parsed(es[1..], rest)
    ensures ParseElems(Before(T_COMMA, s)) == Parsed(es, rest)
  {
    assert es == [es[0]] + es[1..];
  }
}
