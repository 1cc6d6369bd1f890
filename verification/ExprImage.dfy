/** The trees the parser can build are exactly the ones the printer round-trips. */
module ExprImage {
  import opened Tokens
  import opened TypeSyntax
  import opened ExprSyntax
  import opened ExprRoundTrip

  /** Every type annotation in the tree survives printing. */
  predicate TypesPrintable(e: Expr)
    decreases e, 1
  {
    match e
    case ETuple(es) => AllTypesPrintable(es)
    case ECallName(_, args) => AllTypesPrintable(args)
    case ECall(fn, args) => TypesPrintable(fn) && AllTypesPrintable(args)
    case EIndex(o, i) => TypesPrintable(o) && TypesPrintable(i)
    case EAppend(o) => TypesPrintable(o)
    case EField(o, _) => TypesPrintable(o)
    case EMethod(o, _, args) => TypesPrintable(o) && AllTypesPrintable(args)
    case EUn(_, o) => TypesPrintable(o)
    case EDeref(o) => TypesPrintable(o)
    case EBorrow(o) => TypesPrintable(o)
    case EBin(_, l, r) => TypesPrintable(l) && TypesPrintable(r)
    case ETern(c, t, e') => TypesPrintable(c) && TypesPrintable(t) && TypesPrintable(e')
    case EAssign(_, t, v) => TypesPrintable(t) && TypesPrintable(v)
    case EDecl(_, ty) => Printable(ty)
    case EDeclInit(_, ty, v) => Printable(ty) && TypesPrintable(v)
    case _ => true
  }

  predicate AllTypesPrintable(es: seq<Expr>)
    decreases es, 0
  {
    es == [] || (TypesPrintable(es[0]) && AllTypesPrintable(es[1..]))
  }

  predicate Good(e: Expr) { TypesPrintable(e) ==> WellFormed(e) }

  predicate AllGood(es: seq<Expr>) { AllTypesPrintable(es) ==> WellFormedAll(es) }

  predicate GoodParse(r: Parse<Expr>) { r.Parsed? ==> Good(r.value) }

  predicate GoodParses(r: Parse<seq<Expr>>) { r.Parsed? ==> AllGood(r.value) }

  lemma PrependGood(e: Expr, es: seq<Expr>)
    requires Good(e) && AllGood(es)
    ensures AllGood([e] + es)
  {
    assert ([e] + es)[1..] == es;
  }

  lemma OneGood(e: Expr)
    requires Good(e)
    ensures AllGood([e])
  {
    assert [e][1..] == [];
  }

  lemma {:induction false} AssignImage(s: Stream)
    ensures GoodParse(ParseAssign(s))
    decreases s.Len(), 30
  {
    if StartsDecl(s) { DeclImage(s.head.text, s.tail.tail); } else {
      TernaryImage(s);
      var lhs := ParseTernary(s);
      if lhs.Parsed? && IsAssignOp(lhs.rest.Kind()) {
        if lhs.rest.Kind() == T_QQASSIGN { TernaryImage(lhs.rest.Next()); } else { AssignImage(lhs.rest.Next()); }
      }
      if lhs.Parsed? { BumpGood(lhs.value, lhs.rest.Kind()); }
    }
  }

  lemma BumpGood(e: Expr, k: TokKind)
    requires Good(e)
    ensures Good(Bump(e, k))
  {
    var one := EInt(1);
    assert WellFormed(one) && TypesPrintable(one);
    var sum := EBin(if k == T_INCR then T_PLUS else T_MINUS, e, one);
    assert WellFormed(sum) == WellFormed(e);
    assert TypesPrintable(sum) == TypesPrintable(e);
  }

  lemma {:induction false} DeclImage(x: Word, s: Stream)
    ensures GoodParse(ParseDecl(x, s))
    decreases s.Len(), 31
  {
    var t := ParseType(s);
    if t.Parsed? && t.rest.Kind() == T_ASSIGN {
      AssignImage(t.rest.Next());
      var v := ParseAssign(t.rest.Next());
      assert ParseDecl(x, s) == if v.Parsed? then Parsed(EDeclInit(x, t.value, v.value), v.rest) else v;
    }
  }

  lemma {:induction false} TernaryImage(s: Stream)
    ensures GoodParse(ParseTernary(s))
    decreases s.Len(), 29
  {
    LevelImage(0, s);
    var c := ParseLevel(0, s);
    if c.Parsed? && c.rest.Kind() == T_QUESTIONQUESTION { TernaryImage(c.rest.Next()); }
    if c.Parsed? && c.rest.Kind() == T_QUESTION {
      AssignImage(c.rest.Next());
      var t := ParseAssign(c.rest.Next());
      if t.Parsed? && t.rest.Kind() == T_COLON { TernaryImage(t.rest.Next()); }
      assert GoodParse(ParseBranches(c.value, c.rest.Next()));
    }
  }

  lemma {:induction false} LevelImage(lvl: nat, s: Stream)
    requires lvl <= NLEVELS
    ensures GoodParse(ParseLevel(lvl, s))
    decreases s.Len(), 28 - lvl
  {
    if lvl == NLEVELS { PowImage(s); } else {
      LevelImage(lvl + 1, s);
      var l := ParseLevel(lvl + 1, s);
      if l.Parsed? { LoopImage(lvl, l.value, l.rest); }
    }
  }

  lemma {:induction false} LoopImage(lvl: nat, l: Expr, s: Stream)
    requires lvl < NLEVELS && Good(l)
    ensures GoodParse(ParseLoop(lvl, l, s))
    decreases s.Len(), 28 - lvl
  {
    if OpStrength(s.Kind()) == BINARY + lvl {
      LevelImage(lvl + 1, s.Next());
      var r := ParseLevel(lvl + 1, s.Next());
      if r.Parsed? { LoopImage(lvl, EBin(s.Kind(), l, r.value), r.rest); }
    }
  }

  lemma {:induction false} PowImage(s: Stream)
    ensures GoodParse(ParsePow(s))
    decreases s.Len(), 16
  {
    UnaryImage(s);
    var b := ParseUnary(s);
    if b.Parsed? && b.rest.Kind() == T_POW { PowImage(b.rest.Next()); }
  }

  lemma {:induction false} UnaryImage(s: Stream)
    ensures GoodParse(ParseUnary(s))
    ensures ParseUnary(s).Parsed? && (s.Kind() == T_VAR || s.Kind() == T_AMP) ==> Borrowable(ParseUnary(s).value)
    decreases s.Len(), 15
  {
    var k := s.Kind();
    if IsPrefixOp(k) || k == T_STAR || (k == T_AMP && (s.Next().Kind() == T_VAR || s.Next().Kind() == T_AMP)) {
      UnaryImage(s.Next());
    } else {
      PostfixImage(s);
    }
  }

  lemma {:induction false} PostfixImage(s: Stream)
    ensures GoodParse(ParsePostfix(s))
    ensures ParsePostfix(s).Parsed? && s.Kind() == T_VAR ==> Borrowable(ParsePostfix(s).value)
    ensures s.Kind() == T_AMP ==> !ParsePostfix(s).Parsed?
    decreases s.Len(), 14
  {
    PrimaryImage(s);
    var p := ParsePrimary(s);
    if p.Parsed? { SuffixesImage(p.value, p.rest); }
  }

  /** What the suffixes hang on stays borrowable: a call never hangs on a bare field. */
  predicate Hangs(e: Expr, s: Stream) { BorrowableObject(e) && !(e.EField? && s.Kind() == T_LPAREN) }

  /** A suffix on a borrowable object makes another one. */
  lemma HangsOn(e: Expr, i: Expr, name: Word, args: seq<Expr>)
    requires BorrowableObject(e)
    ensures BorrowableObject(EIndex(e, i)) && BorrowableObject(EAppend(e)) && BorrowableObject(EField(e, name))
    ensures BorrowableObject(EMethod(e, name, args)) && (!e.EField? ==> BorrowableObject(ECall(e, args)))
  {
    assert Borrowable(EIndex(e, i)) && Borrowable(EAppend(e)) && Borrowable(EField(e, name));
    assert Borrowable(EMethod(e, name, args)) && (!e.EField? ==> Borrowable(ECall(e, args)));
  }

  lemma {:induction false} SuffixesImage(e: Expr, s: Stream)
    requires Good(e)
    ensures GoodParse(ParseSuffixes(e, s))
    ensures ParseSuffixes(e, s).Parsed? && Hangs(e, s) ==> Borrowable(ParseSuffixes(e, s).value)
    decreases s.Len(), 13
  {
    var k := s.Kind();
    if k == T_LBRACKET { IndexImage(e, s);
    } else if k == T_ARROW {
      if s.Next().Kind() == T_IDENT { MemberImage(e, s.tail.head.text, s.Next().Next()); }
    } else if k == T_LPAREN { CallImage(e, s); }
  }

  lemma {:induction false} CallImage(e: Expr, s: Stream)
    requires Good(e) && s.Kind() == T_LPAREN
    ensures GoodParse(ParseSuffixes(e, s))
    ensures ParseSuffixes(e, s).Parsed? && Hangs(e, s) ==> Borrowable(ParseSuffixes(e, s).value)
    decreases s.Len(), 12
  {
    ArgsImage(s.Next());
    var a := ParseArgs(s.Next());
    if a.Parsed? {
      if Hangs(e, s) { HangsOn(e, e, MutWord, a.value); }
      SuffixesImage(ECall(e, a.value), a.rest);
    }
  }

  lemma {:induction false} IndexImage(e: Expr, s: Stream)
    requires Good(e) && s.Kind() == T_LBRACKET
    ensures GoodParse(ParseSuffixes(e, s))
    ensures ParseSuffixes(e, s).Parsed? && BorrowableObject(e) ==> Borrowable(ParseSuffixes(e, s).value)
    decreases s.Len(), 12
  {
    if s.Next().Kind() == T_RBRACKET {
      if BorrowableObject(e) { HangsOn(e, e, MutWord, []); }
      SuffixesImage(EAppend(e), s.Next().Next());
    } else {
      AssignImage(s.Next());
      var i := ParseAssign(s.Next());
      if i.Parsed? && i.rest.Kind() == T_RBRACKET {
        if BorrowableObject(e) { HangsOn(e, i.value, MutWord, []); }
        SuffixesImage(EIndex(e, i.value), i.rest.Next());
      }
    }
  }

  lemma {:induction false} MemberImage(e: Expr, name: Word, s: Stream)
    requires Good(e)
    ensures GoodParse(ParseMember(e, name, s))
    ensures ParseMember(e, name, s).Parsed? && BorrowableObject(e) ==> Borrowable(ParseMember(e, name, s).value)
    decreases s.Len(), 14
  {
    if s.Kind() != T_LPAREN {
      if BorrowableObject(e) { HangsOn(e, e, name, []); }
      SuffixesImage(EField(e, name), s);
    } else {
      ArgsImage(s.Next());
      var a := ParseArgs(s.Next());
      if a.Parsed? {
        if BorrowableObject(e) { HangsOn(e, e, name, a.value); }
        SuffixesImage(EMethod(e, name, a.value), a.rest);
      }
    }
  }

  lemma {:induction false} ArgsImage(s: Stream)
    ensures GoodParses(ParseArgs(s))
    decreases s.Len(), 33
  {
    ArgListImage(s);
  }

  lemma {:induction false} ArgListImage(s: Stream)
    ensures GoodParses(ParseArgList(s))
    decreases s.Len(), 32
  {
    if s.Kind() != T_RPAREN && s.Kind() != T_EOF {
      AssignImage(s);
      var a := ParseAssign(s);
      if a.Parsed? { OneGood(a.value); }
      if a.Parsed? && a.rest.Kind() == T_COMMA {
        ArgListImage(a.rest.Next());
        var more := ParseArgList(a.rest.Next());
        if more.Parsed? { PrependGood(a.value, more.value); }
      }
    }
  }

  lemma {:induction false} PrimaryImage(s: Stream)
    ensures GoodParse(ParsePrimary(s))
    ensures var r := ParsePrimary(s); s.Kind() == T_VAR && r.Parsed? ==> BorrowableObject(r.value) && !r.value.EField?
    ensures s.Kind() == T_AMP ==> !ParsePrimary(s).Parsed?
    decreases s.Len(), 12
  {
    var k, after := s.Kind(), s.Next();
    if (k == T_VAR || k == T_IDENT) && after.Kind() == T_LPAREN { ArgsImage(after.Next()); }
    if k == T_LPAREN { ParenImage(after); }
    if k == T_VAR { assert BorrowableObject(EVar(s.head.text)); }
    if k == T_VAR && after.Kind() == T_LPAREN && ParseArgs(after.Next()).Parsed? {
      HangsOn(EVar(s.head.text), ENull, MutWord, ParseArgs(after.Next()).value);
    }
  }

  lemma {:induction false} ParenImage(s: Stream)
    ensures GoodParse(ParseParen(s))
    decreases s.Len(), 33
  {
    if s.Kind() != T_RPAREN {
      AssignImage(s);
      var first := ParseAssign(s);
      if first.Parsed? && first.rest.Kind() == T_COMMA {
        ElemsImage(first.rest);
        var more := ParseElems(first.rest);
        if more.Parsed? { PrependGood(first.value, more.value); }
      }
    }
  }

  lemma {:induction false} ElemsImage(s: Stream)
    ensures GoodParses(ParseElems(s))
    decreases s.Len(), 32
  {
    if s.Kind() == T_COMMA && s.Next().Kind() != T_RPAREN {
      AssignImage(s.Next());
      var e := ParseAssign(s.Next());
      if e.Parsed? {
        ElemsImage(e.rest);
        var more := ParseElems(e.rest);
        if more.Parsed? { PrependGood(e.value, more.value); }
      }
    }
  }

  lemma {:induction false} WellFormedPrintsTypes(e: Expr)
    requires WellFormed(e)
    ensures TypesPrintable(e)
    decreases e, 1
  {
    match e
    case ETuple(es) => AllWellFormedPrintTypes(es);
    case ECallName(_, args) => AllWellFormedPrintTypes(args);
    case ECall(fn, args) => WellFormedPrintsTypes(fn); AllWellFormedPrintTypes(args);
    case EIndex(o, i) => WellFormedPrintsTypes(o); WellFormedPrintsTypes(i);
    case EAppend(o) => WellFormedPrintsTypes(o);
    case EField(o, _) => WellFormedPrintsTypes(o);
    case EMethod(o, _, args) => WellFormedPrintsTypes(o); AllWellFormedPrintTypes(args);
    case EUn(_, o) => WellFormedPrintsTypes(o);
    case EDeref(o) => WellFormedPrintsTypes(o);
    case EBorrow(o) => WellFormedPrintsTypes(o);
    case EBin(_, l, r) => WellFormedPrintsTypes(l); WellFormedPrintsTypes(r);
    case ETern(c, t, e') => WellFormedPrintsTypes(c); WellFormedPrintsTypes(t); WellFormedPrintsTypes(e');
    case EAssign(_, t, v) => WellFormedPrintsTypes(t); WellFormedPrintsTypes(v);
    case EDeclInit(_, _, v) => WellFormedPrintsTypes(v);
    case _ =>
  }

  lemma {:induction false} AllWellFormedPrintTypes(es: seq<Expr>)
    requires WellFormedAll(es)
    ensures AllTypesPrintable(es)
    decreases es, 0
  {
    if es != [] {
      WellFormedPrintsTypes(es[0]);
      AllWellFormedPrintTypes(es[1..]);
    }
  }

  // ----- The main results -----

  /** Parsing undoes printing and consumes exactly the printed tokens, whatever stands behind them that
      cannot continue an expression. */
  lemma ParsingUndoesPrinting(e: Expr, rest: Stream)
    requires WellFormed(e) && Stops(ASSIGN, rest) && rest.Kind() != T_COLON
    ensures ParseAssign(Print(e, ASSIGN, rest)) == Parsed(e, rest)
  {
    AssignTrip(e, rest);
  }

  /** Two different trees never print the same tokens. */
  lemma PrintingIsInjective(a: Expr, b: Expr)
    requires WellFormed(a) && WellFormed(b) && Print(a, ASSIGN, End) == Print(b, ASSIGN, End)
    ensures a == b
  {
    var s := Print(a, ASSIGN, End);
    ReadsBackAs(a, s);
    ReadsBackAs(b, s);
  }

  lemma ReadsBackAs(e: Expr, s: Stream)
    requires WellFormed(e) && s == Print(e, ASSIGN, End)
    ensures ParseAssign(s) == Parsed(e, End)
  {
    EndStops(e);
    AssignTrip(e, End);
  }

  lemma EndStops(e: Expr)
    ensures Stops(ASSIGN, End) && NoDecl(e, End)
  {
  }

  /** Any tokens that parse at all can be printed back and parse to the same tree, unless a type
      annotation in them is one of those that printing loses. */
  lemma PrintingUndoesParsing(s: Stream)
    requires ParseAssign(s).Parsed? && TypesPrintable(ParseAssign(s).value)
    ensures ParseAssign(Print(ParseAssign(s).value, ASSIGN, End)) == Parsed(ParseAssign(s).value, End)
  {
    AssignImage(s);
    AssignTrip(ParseAssign(s).value, End);
  }

  /** The trees the round trip is proved for are exactly the trees the parser builds, types aside. */
  lemma ParserBuildsExactlyTheWellFormed(e: Expr)
    requires TypesPrintable(e)
    ensures WellFormed(e) <==> exists s :: ParseAssign(s) == Parsed(e, End)
  {
    if WellFormed(e) { AssignTrip(e, End); }
    if s :| ParseAssign(s) == Parsed(e, End) { AssignImage(s); }
  }

  // ----- When parentheses around a then-branch are needed -----

  /** In front of a colon and a type, what ends in a variable is read as something else. */
  lemma {:induction false} DeclarationTakesOver(e: Expr, rest: Stream)
    requires WellFormed(e) && !NoDecl(e, rest)
    ensures var r := ParseAssign(Bare(e, rest)); r.Parsed? ==> r.value != e
    decreases e
  {
    match e
    case EVar(x) => assert StartsDecl(Bare(e, rest));
    case EAssign(op, t, v) =>
      var right := Bare(v, rest);
      FirstTokens(t, TERNARY, Before(op, right));
      TernaryTrip(t, Before(op, right));
      DeclarationTakesOver(v, rest);
    case EDeclInit(x, ty, v) =>
      var after := Before(T_ASSIGN, Bare(v, rest));
      FirstTokensOfType(ty, after);
      TypeRoundTrip(ty, after);
      DeclarationTakesOver(v, rest);
  }

  lemma FirstTokensOfType(ty: Type, rest: Stream)
    requires Printable(ty)
    ensures StartsType(PrintType(ty, rest).Kind())
  {
  }

  /** Printed without parentheses, an expression reads back if and only if it does not end in a variable
      or no colon with a type follows. */
  lemma ReadsBackIff(e: Expr, rest: Stream)
    requires WellFormed(e) && Stops(ASSIGN, rest)
    ensures ParseAssign(Bare(e, rest)) == Parsed(e, rest) <==> NoDecl(e, rest)
  {
    if NoDecl(e, rest) { AssignTrip(e, rest); } else { DeclarationTakesOver(e, rest); }
  }

  /** A conditional printed without parentheses around its then-branch. */
  function BareBranches(e: Expr, rest: Stream): Stream
    requires e.ETern?
  {
    Print(e.cond, BINARY, Before(T_QUESTION, Bare(e.thn, Before(T_COLON, Print(e.els, TERNARY, rest)))))
  }

  /** The parentheses around a then-branch are needed if and only if the branch ends in a variable and
      the else-branch starts with a token that a type can start with. */
  lemma ParenthesesNeededIff(e: Expr, rest: Stream)
    requires e.ETern? && WellFormed(e) && Stops(ASSIGN, rest)
    ensures ParseAssign(BareBranches(e, rest)) == Parsed(e, rest)
            <==> !(EndsInVar(e.thn) && StartsType(Print(e.els, TERNARY, rest).Kind()))
  {
    var right := Print(e.els, TERNARY, rest);
    ConditionIsRead(e.cond, Bare(e.thn, Before(T_COLON, right)));
    BranchesReadIff(e, right, rest);
    NothingBehind(BareBranches(e, rest), e, rest);
  }

  lemma BranchesReadIff(e: Expr, right: Stream, rest: Stream)
    requires e.ETern? && WellFormed(e) && Stops(ASSIGN, rest) && right == Print(e.els, TERNARY, rest)
    ensures ParseBranches(e.cond, Bare(e.thn, Before(T_COLON, right))) == Parsed(e, rest)
            <==> !(EndsInVar(e.thn) && StartsType(right.Kind()))
  {
    var colon := Before(T_COLON, right);
    if EndsInVar(e.thn) && StartsType(right.Kind()) { DeclarationTakesOver(e.thn, colon); } else { AssignTrip(e.thn, colon); }
    TernaryTrip(e.els, rest);
    BranchesStep(e, Bare(e.thn, colon), right, rest);
  }

  lemma BranchesStep(e: Expr, branch: Stream, right: Stream, rest: Stream)
    requires e.ETern? && ParseTernary(right) == Parsed(e.els, rest)
    requires var t := ParseAssign(branch); t == Parsed(e.thn, Before(T_COLON, right)) || (t.Parsed? ==> t.value != e.thn)
    ensures ParseBranches(e.cond, branch) == Parsed(e, rest) <==> ParseAssign(branch) == Parsed(e.thn, Before(T_COLON, right))
  {
  }

  lemma ConditionIsRead(c: Expr, branch: Stream)
    requires WellFormed(c)
    ensures var s := Print(c, BINARY, Before(T_QUESTION, branch));
            !StartsDecl(s) && ParseTernary(s) == ParseBranches(c, branch)
  {
    FirstTokens(c, BINARY, Before(T_QUESTION, branch));
    LevelTrip(0, c, Before(T_QUESTION, branch));
    LoopEnds(0, c, Before(T_QUESTION, branch));
  }

  /** A conditional is no target of an assignment. */
  lemma NothingBehind(s: Stream, e: Expr, rest: Stream)
    requires e.ETern? && !StartsDecl(s) && Stops(ASSIGN, rest)
    ensures ParseAssign(s) == Parsed(e, rest) <==> ParseTernary(s) == Parsed(e, rest)
  {
  }

  /** `$c ? $x : f` is a condition with a declaration of `$x` in its then-branch, and no else-branch. */
  lemma UnparenthesisedThenBranchIsLost(c: Word, x: Word, f: Word)
    requires !Reserved(f)
    ensures WellFormed(ETern(EVar(c), EVar(x), EVar(f)))
    ensures ParseAssign(More(Var(c), Before(T_QUESTION, More(Var(x), Before(T_COLON, More(Name(f), End)))))) == Fatal
  {
    var decl := More(Var(x), Before(T_COLON, More(Name(f), End)));
    DeclarationIsRead(x, f);
    assert ParseBranches(EVar(c), decl) == Fatal;
    ConditionIsRead(EVar(c), decl);
  }

  lemma DeclarationIsRead(x: Word, f: Word)
    requires !Reserved(f)
    ensures ParseAssign(More(Var(x), Before(T_COLON, More(Name(f), End)))) == Parsed(EDecl(x, TClass(f)), End)
  {
    assert ParseType(More(Name(f), End)) == ParseNamed(f, End);
    DeclStep(EDecl(x, TClass(f)), More(Name(f), End), End, End);
  }

  // ----- Increments -----

  const ONE: Token := Token(T_INT, OtherWord(""), 1)

  /** The tokens of `t = t op 1`. */
  function StepTokens(t: Expr, op: TokKind, rest: Stream): Stream {
    Print(t, TERNARY, Before(T_ASSIGN, Print(t, OpStrength(op), Before(op, More(ONE, rest)))))
  }

  /** `t++` is read as the tree of `t = t + 1`, and `t--` as that of `t = t - 1`, up to the same place. */
  lemma IncrementsAreSteps(t: Expr, rest: Stream)
    requires WellFormed(t) && Stops(ASSIGN, rest)
    ensures ParseAssign(Print(t, TERNARY, Before(T_INCR, rest))) == ParseAssign(StepTokens(t, T_PLUS, rest))
    ensures ParseAssign(Print(t, TERNARY, Before(T_DECR, rest))) == ParseAssign(StepTokens(t, T_MINUS, rest))
    ensures ParseAssign(StepTokens(t, T_PLUS, rest)) == Parsed(EAssign(T_ASSIGN, t, EBin(T_PLUS, t, EInt(1))), rest)
    ensures ParseAssign(StepTokens(t, T_MINUS, rest)) == Parsed(EAssign(T_ASSIGN, t, EBin(T_MINUS, t, EInt(1))), rest)
  {
    StepIsRead(t, T_PLUS, rest);
    StepIsRead(t, T_MINUS, rest);
    IncrementIsRead(t, T_INCR, rest);
    IncrementIsRead(t, T_DECR, rest);
  }

  lemma SumIsPrinted(t: Expr, op: TokKind, p: int, rest: Stream)
    requires WellFormed(t) && (op == T_PLUS || op == T_MINUS) && p <= TERNARY
    ensures var sum := EBin(op, t, EInt(1));
            WellFormed(sum) && NoDecl(sum, rest) && Print(sum, p, rest) == Print(t, OpStrength(op), Before(op, More(ONE, rest)))
  {
    var sum := EBin(op, t, EInt(1));
    assert Strength(sum) == OpStrength(op) == BINARY + 9;
    assert Print(EInt(1), OpStrength(op) + 1, rest) == Bare(EInt(1), rest) == More(ONE, rest);
  }

  lemma StepIsRead(t: Expr, op: TokKind, rest: Stream)
    requires WellFormed(t) && Stops(ASSIGN, rest) && (op == T_PLUS || op == T_MINUS)
    ensures ParseAssign(StepTokens(t, op, rest)) == Parsed(EAssign(T_ASSIGN, t, EBin(op, t, EInt(1))), rest)
  {
    var e := EAssign(T_ASSIGN, t, EBin(op, t, EInt(1)));
    SumIsPrinted(t, op, ASSIGN, rest);
    assert Bare(e, rest) == StepTokens(t, op, rest);
    AssignTrip(e, rest);
  }

  lemma IncrementIsRead(t: Expr, k: TokKind, rest: Stream)
    requires WellFormed(t) && (k == T_INCR || k == T_DECR)
    ensures ParseAssign(Print(t, TERNARY, Before(k, rest)))
         == Parsed(EAssign(T_ASSIGN, t, EBin(if k == T_INCR then T_PLUS else T_MINUS, t, EInt(1))), rest)
  {
    FirstTokens(t, TERNARY, Before(k, rest));
    TernaryTrip(t, Before(k, rest));
  }

  // ----- The order of the operators -----

  /** One operator of each level, loosest first. */
  const LADDER: seq<TokKind> := [T_OROR, T_ANDAND, T_PIPE, T_CARET, T_AMP, T_EQ, T_LT, T_DOT, T_SHL, T_PLUS, T_STAR]

  /** `$x op $x op ... - $x ** $x` without any parentheses. */
  function Ladder(ops: seq<TokKind>, x: Word, rest: Stream): Stream {
    if ops == [] then Before(T_MINUS, More(Var(x), Before(T_POW, More(Var(x), rest))))
    else More(Var(x), Before(ops[0], Ladder(ops[1..], x, rest)))
  }

  function LadderTree(ops: seq<TokKind>, x: Word): Expr {
    if ops == [] then EBin(T_POW, EUn(T_MINUS, EVar(x)), EVar(x)) else EBin(ops[0], EVar(x), LadderTree(ops[1..], x))
  }

  predicate Rising(ops: seq<TokKind>, p: int) {
    if ops == [] then p <= POWER
    else BINARY <= OpStrength(ops[0]) && p <= OpStrength(ops[0]) < POWER && Rising(ops[1..], OpStrength(ops[0]) + 1)
  }

  lemma VarIsPrinted(x: Word, p: int, rest: Stream)
    requires p <= ATOM
    ensures Print(EVar(x), p, rest) == More(Var(x), rest)
  {
    assert Strength(EVar(x)) == ATOM && Bare(EVar(x), rest) == More(Var(x), rest);
  }

  lemma RungIsPrinted(op: TokKind, t: Expr, p: int, x: Word, rest: Stream)
    requires BINARY <= OpStrength(op) < POWER && p <= OpStrength(op)
    ensures Print(EBin(op, EVar(x), t), p, rest) == More(Var(x), Before(op, Print(t, OpStrength(op) + 1, rest)))
  {
    var after := Before(op, Print(t, OpStrength(op) + 1, rest));
    VarIsPrinted(x, OpStrength(op), after);
    assert Bare(EBin(op, EVar(x), t), rest) == Print(EVar(x), OpStrength(op), after);
  }

  lemma PowerIsPrinted(p: int, x: Word, rest: Stream)
    requires p <= POWER
    ensures WellFormed(LadderTree([], x)) && Print(LadderTree([], x), p, rest) == Ladder([], x, rest)
  {
    var minus, behind := EUn(T_MINUS, EVar(x)), Before(T_POW, More(Var(x), rest));
    VarIsPrinted(x, POWER, rest);
    VarIsPrinted(x, UNARY, behind);
    assert Print(minus, UNARY, behind) == Before(T_MINUS, More(Var(x), behind));
    assert Bare(EBin(T_POW, minus, EVar(x)), rest) == Print(minus, UNARY, behind);
  }

  lemma {:induction false} LadderIsPrinted(ops: seq<TokKind>, p: int, x: Word, rest: Stream)
    requires Rising(ops, p)
    ensures WellFormed(LadderTree(ops, x)) && Print(LadderTree(ops, x), p, rest) == Ladder(ops, x, rest)
  {
    if ops == [] { PowerIsPrinted(p, x, rest); } else {
      LadderIsPrinted(ops[1..], OpStrength(ops[0]) + 1, x, rest);
      RungIsPrinted(ops[0], LadderTree(ops[1..], x), p, x, rest);
    }
  }

  /** Each operator binds more tightly than the ones in front of it: the line is read as operations nested to the right. */
  lemma LadderIsRead(x: Word)
    ensures ParseAssign(Ladder(LADDER, x, End)) == Parsed(LadderTree(LADDER, x), End)
  {
    LadderRises();
    LadderIsPrinted(LADDER, ASSIGN, x, End);
    ReadsBackAs(LadderTree(LADDER, x), Ladder(LADDER, x, End));
  }

  lemma LadderRises()
    ensures Rising(LADDER, ASSIGN)
  {
    TightHalfRises();
    var tight := [T_EQ, T_LT, T_DOT, T_SHL, T_PLUS, T_STAR];
    RisingStep(T_AMP, tight, 6);
    RisingStep(T_CARET, [T_AMP] + tight, 5);
    RisingStep(T_PIPE, [T_CARET] + ([T_AMP] + tight), 4);
    RisingStep(T_ANDAND, [T_PIPE] + ([T_CARET] + ([T_AMP] + tight)), 3);
    RisingStep(T_OROR, [T_ANDAND] + ([T_PIPE] + ([T_CARET] + ([T_AMP] + tight))), 0);
    assert LADDER == [T_OROR] + ([T_ANDAND] + ([T_PIPE] + ([T_CARET] + ([T_AMP] + tight))));
  }

  lemma TightHalfRises()
    ensures Rising([T_EQ, T_LT, T_DOT, T_SHL, T_PLUS, T_STAR], 7)
  {
    assert Rising([], 13);
    RisingStep(T_STAR, [], 12);
    RisingStep(T_PLUS, [T_STAR] + [], 11);
    RisingStep(T_SHL, [T_PLUS] + ([T_STAR] + []), 10);
    RisingStep(T_DOT, [T_SHL] + ([T_PLUS] + ([T_STAR] + [])), 9);
    RisingStep(T_LT, [T_DOT] + ([T_SHL] + ([T_PLUS] + ([T_STAR] + []))), 8);
    RisingStep(T_EQ, [T_LT] + ([T_DOT] + ([T_SHL] + ([T_PLUS] + ([T_STAR] + [])))), 7);
    assert [T_EQ, T_LT, T_DOT, T_SHL, T_PLUS, T_STAR] == [T_EQ] + ([T_LT] + ([T_DOT] + ([T_SHL] + ([T_PLUS] + ([T_STAR] + [])))));
  }

  lemma RisingStep(op: TokKind, ops: seq<TokKind>, p: int)
    requires BINARY <= OpStrength(op) < POWER && p <= OpStrength(op) && Rising(ops, OpStrength(op) + 1)
    ensures Rising([op] + ops, p)
  {
    assert ([op] + ops)[1..] == ops;
  }
}
