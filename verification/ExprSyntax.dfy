/** Expressions: the recursive-descent grammar as functions on what is left of the token stream,
    and a printer that puts in the parentheses this grammar needs. */
module ExprSyntax {
  import opened Tokens
  import opened TypeSyntax

  datatype Expr =
    | EInt(n: int) | EStr(s: Word) | EBool(b: bool) | ENull
    | EVar(x: Word)
    | ETuple(elems: seq<Expr>)
    | ECallName(f: Word, args: seq<Expr>)
    | ECall(fn: Expr, args: seq<Expr>)
    | EIndex(obj: Expr, idx: Expr)
    | EAppend(obj: Expr)
    | EField(obj: Expr, name: Word)
    | EMethod(obj: Expr, name: Word, args: seq<Expr>)
    | EUn(op: TokKind, operand: Expr) | EDeref(operand: Expr) | EBorrow(operand: Expr)
    | EBin(op: TokKind, l: Expr, r: Expr)
    | ETern(cond: Expr, thn: Expr, els: Expr)
    | EAssign(op: TokKind, target: Expr, value: Expr)
    | EDecl(x: Word, ty: Type)
    | EDeclInit(x: Word, ty: Type, value: Expr)

  // ----- Operators -----

  const NLEVELS: nat := 11

  /** The binary operators by level, loosest first. */
  function Level(lvl: nat): seq<TokKind> {
    if lvl == 0 then [T_OROR]
    else if lvl == 1 then [T_ANDAND]
    else if lvl == 2 then [T_PIPE]
    else if lvl == 3 then [T_CARET]
    else if lvl == 4 then [T_AMP]
    else if lvl == 5 then [T_EQ, T_NEQ, T_NEQ2, T_EQ2, T_SPACESHIP]
    else if lvl == 6 then [T_LT, T_GT, T_LE, T_GE]
    else if lvl == 7 then [T_DOT]
    else if lvl == 8 then [T_SHL, T_SHR]
    else if lvl == 9 then [T_PLUS, T_MINUS]
    else if lvl == 10 then [T_STAR, T_SLASH, T_PERCENT]
    else []
  }

  // Binding strength, one scale for everything: assignment, ternary, the eleven levels, and so on.
  const ASSIGN: int := 0
  const TERNARY: int := 1
  const BINARY: int := 2
  const POWER: int := 13
  const UNARY: int := 14
  const POSTFIX: int := 15
  const ATOM: int := 16

  predicate IsAssignOp(k: TokKind) { T_ASSIGN <= k <= T_SHRASSIGN || k == T_QQASSIGN }

  /** How strongly a token binds the operand in front of it; -1 when it does not. */
  function OpStrength(k: TokKind): int {
    if IsAssignOp(k) || k == T_INCR || k == T_DECR then ASSIGN
    else if k == T_QUESTION || k == T_QUESTIONQUESTION then TERNARY
    else if k == T_OROR then BINARY
    else if k == T_ANDAND then BINARY + 1
    else if k == T_PIPE then BINARY + 2
    else if k == T_CARET then BINARY + 3
    else if k == T_AMP then BINARY + 4
    else if T_EQ <= k <= T_SPACESHIP then BINARY + 5
    else if T_LT <= k <= T_GE then BINARY + 6
    else if k == T_DOT then BINARY + 7
    else if k == T_SHL || k == T_SHR then BINARY + 8
    else if k == T_PLUS || k == T_MINUS then BINARY + 9
    else if k == T_STAR || k == T_SLASH || k == T_PERCENT then BINARY + 10
    else if k == T_POW then POWER
    else -1
  }

  /** The scale and the table agree. */
  lemma LevelsByStrength(k: TokKind, lvl: nat)
    requires lvl < NLEVELS
    ensures k in Level(lvl) <==> OpStrength(k) == BINARY + lvl
  {
  }

  predicate IsPrefixOp(k: TokKind) { k == T_NOT || k == T_MINUS || k == T_PLUS || k == T_TILDE }

  predicate StartsType(k: TokKind) {
    k == T_IDENT || k == T_AMP || k == T_STAR || k == T_LBRACKET || k == T_KW_FN || k == T_KW_OWN
  }

  // ----- Parsing -----

  /** `$x: T` at the start of an assignment is a typed declaration. */
  predicate StartsDecl(s: Stream) {
    s.Kind() == T_VAR && s.Next().Kind() == T_COLON && StartsType(s.Next().Next().Kind())
  }

  function ParseAssign(s: Stream): (r: Parse<Expr>)
    ensures Shorter(r, s)
    decreases s.Len(), 30
  {
    if StartsDecl(s) then ParseDecl(s.head.text, s.tail.tail) else
    var lhs := ParseTernary(s);
    if !lhs.Parsed? then lhs else
    var k := lhs.rest.Kind();
    if IsAssignOp(k) then
      var v := if k == T_QQASSIGN then ParseTernary(lhs.rest.Next()) else ParseAssign(lhs.rest.Next());
      if v.Parsed? then Parsed(EAssign(k, lhs.value, v.value), v.rest) else v
    else if k == T_INCR || k == T_DECR then
      Parsed(Bump(lhs.value, k), lhs.rest.Next())
    else lhs
  }

  /** `$v++` stands for `$v = $v + 1`. */
  function Bump(e: Expr, k: TokKind): Expr {
    EAssign(T_ASSIGN, e, EBin(if k == T_INCR then T_PLUS else T_MINUS, e, EInt(1)))
  }

  /** After `$x:`. */
  function ParseDecl(x: Word, s: Stream): (r: Parse<Expr>)
    ensures Shorter(r, s)
    decreases s.Len(), 31
  {
    var t := ParseType(s);
    if !t.Parsed? then t.Failed()
    else if t.rest.Kind() != T_ASSIGN then Parsed(EDecl(x, t.value), t.rest)
    else
      var v := ParseAssign(t.rest.Next());
      if v.Parsed? then Parsed(EDeclInit(x, t.value, v.value), v.rest) else v
  }

  function ParseTernary(s: Stream): (r: Parse<Expr>)
    ensures Shorter(r, s)
    decreases s.Len(), 29
  {
    var c := ParseLevel(0, s);
    if !c.Parsed? then c
    else if c.rest.Kind() == T_QUESTIONQUESTION then
      var e := ParseTernary(c.rest.Next());
      if e.Parsed? then Parsed(EBin(T_QUESTIONQUESTION, c.value, e.value), e.rest) else e
    else if c.rest.Kind() == T_QUESTION then ParseBranches(c.value, c.rest.Next())
    else c
  }

  /** After `cond ?`. */
  function ParseBranches(c: Expr, s: Stream): (r: Parse<Expr>)
    ensures Shorter(r, s)
    decreases s.Len(), 31
  {
    var t := ParseAssign(s);
    if !t.Parsed? then t
    else if t.rest.Kind() != T_COLON then Fatal
    else
      var e := ParseTernary(t.rest.Next());
      if e.Parsed? then Parsed(ETern(c, t.value, e.value), e.rest) else e
  }

  function ParseLevel(lvl: nat, s: Stream): (r: Parse<Expr>)
    requires lvl <= NLEVELS
    ensures Shorter(r, s)
    decreases s.Len(), 28 - lvl
  {
    if lvl == NLEVELS then ParsePow(s) else
    var l := ParseLevel(lvl + 1, s);
    if l.Parsed? then ParseLoop(lvl, l.value, l.rest) else l
  }

  /** The operator loop of a level, with the operand l already parsed. */
  function ParseLoop(lvl: nat, l: Expr, s: Stream): (r: Parse<Expr>)
    requires lvl < NLEVELS
    ensures NotLonger(r, s)
    decreases s.Len(), 28 - lvl
  {
    if OpStrength(s.Kind()) != BINARY + lvl then Parsed(l, s) else
    var r := ParseLevel(lvl + 1, s.Next());
    if r.Parsed? then ParseLoop(lvl, EBin(s.Kind(), l, r.value), r.rest) else r
  }

  function ParsePow(s: Stream): (r: Parse<Expr>)
    ensures Shorter(r, s)
    decreases s.Len(), 16
  {
    var b := ParseUnary(s);
    if !b.Parsed? || b.rest.Kind() != T_POW then b else
    var e := ParsePow(b.rest.Next());
    if e.Parsed? then Parsed(EBin(T_POW, b.value, e.value), e.rest) else e
  }

  function ParseUnary(s: Stream): (r: Parse<Expr>)
    ensures Shorter(r, s)
    decreases s.Len(), 15
  {
    var k := s.Kind();
    if IsPrefixOp(k) then
      var o := ParseUnary(s.Next());
      if o.Parsed? then Parsed(EUn(k, o.value), o.rest) else o
    else if k == T_AMP && (s.Next().Kind() == T_VAR || s.Next().Kind() == T_AMP) then
      var o := ParseUnary(s.Next());
      if o.Parsed? then Parsed(EBorrow(o.value), o.rest) else o
    else if k == T_STAR then
      var o := ParseUnary(s.Next());
      if o.Parsed? then Parsed(EDeref(o.value), o.rest) else o
    else ParsePostfix(s)
  }

  function ParsePostfix(s: Stream): (r: Parse<Expr>)
    ensures Shorter(r, s)
    decreases s.Len(), 14
  {
    var p := ParsePrimary(s);
    if p.Parsed? then ParseSuffixes(p.value, p.rest) else p
  }

  /** A cast or a type test; not modelled. */
  predicate StartsCast(s: Stream) {
    || ((s.Kind() == T_KW_AS || s.IsIdent(AsWord)) && s.Next().Kind() != T_VAR)
    || s.IsIdent(IsWord)
  }

  /** The loop over `[...]`, `->name`, `->name(...)` and `(...)`. */
  function ParseSuffixes(e: Expr, s: Stream): (r: Parse<Expr>)
    ensures NotLonger(r, s)
    decreases s.Len(), 13
  {
    var k := s.Kind();
    if k == T_LBRACKET then
      if s.Next().Kind() == T_RBRACKET then ParseSuffixes(EAppend(e), s.Next().Next()) else
      var i := ParseAssign(s.Next());
      if !i.Parsed? then i
      else if i.rest.Kind() == T_ELLIPSIS then Outside
      else if i.rest.Kind() != T_RBRACKET then Fatal
      else ParseSuffixes(EIndex(e, i.value), i.rest.Next())
    else if k == T_ARROW then
      if s.Next().Kind() != T_IDENT then Fatal
      else ParseMember(e, s.tail.head.text, s.Next().Next())
    else if k == T_COLONCOLON then Outside
    else if k == T_LPAREN then
      var a := ParseArgs(s.Next());
      if a.Parsed? then ParseSuffixes(ECall(e, a.value), a.rest) else a.Failed()
    else if StartsCast(s) then Outside
    else Parsed(e, s)
  }

  /** After `->name`. */
  function ParseMember(e: Expr, name: Word, s: Stream): (r: Parse<Expr>)
    ensures NotLonger(r, s)
    decreases s.Len(), 14
  {
    if s.Kind() != T_LPAREN then ParseSuffixes(EField(e, name), s) else
    var a := ParseArgs(s.Next());
    if a.Parsed? then ParseSuffixes(EMethod(e, name, a.value), a.rest) else a.Failed()
  }

  /** After an opening parenthesis: arguments and the closing parenthesis. */
  function ParseArgs(s: Stream): (r: Parse<seq<Expr>>)
    ensures NotLonger(r, s)
    decreases s.Len(), 33
  {
    var a := ParseArgList(s);
    if !a.Parsed? then a
    else if a.rest.Kind() != T_RPAREN then Fatal
    else Parsed(a.value, a.rest.Next())
  }

  function ParseArgList(s: Stream): (r: Parse<seq<Expr>>)
    ensures NotLonger(r, s)
    decreases s.Len(), 32
  {
    if s.Kind() == T_RPAREN || s.Kind() == T_EOF then Parsed([], s) else
    var a := ParseAssign(s);
    if !a.Parsed? then a.Failed()
    else if a.rest.Kind() != T_COMMA then Parsed([a.value], a.rest)
    else
      var rest := ParseArgList(a.rest.Next());
      if rest.Parsed? then Parsed([a.value] + rest.value, rest.rest) else rest
  }

  function ParsePrimary(s: Stream): (r: Parse<Expr>)
    ensures Shorter(r, s)
    decreases s.Len(), 12
  {
    var k, after := s.Kind(), s.Next();
    if k == T_INT then Parsed(EInt(s.head.ival), after)
    else if k == T_STR then Parsed(EStr(s.head.text), after)
    else if k == T_HPHP_TRUE || k == T_HPHP_FALSE then Parsed(EBool(k == T_HPHP_TRUE), after)
    else if k == T_HPHP_NULL then Parsed(ENull, after)
    else if k == T_VAR || k == T_IDENT then
      if after.Kind() != T_LPAREN then Parsed(EVar(s.head.text), after) else
      var a := ParseArgs(after.Next());
      if !a.Parsed? then a.Failed()
      else Parsed(if k == T_VAR then ECall(EVar(s.head.text), a.value) else ECallName(s.head.text, a.value), a.rest)
    else if k == T_LPAREN then ParseParen(after)
    else if k in {T_FLOAT, T_TPL, T_KW_FN, T_KW_FUNCTION, T_KW_NEW, T_KW_MATCH, T_LBRACKET} then Outside
    else Fatal
  }

  /** After `(`: a parenthesised expression or a tuple. */
  function ParseParen(s: Stream): (r: Parse<Expr>)
    ensures Shorter(r, s)
    decreases s.Len(), 33
  {
    if s.Kind() == T_RPAREN then Parsed(ETuple([]), s.Next()) else
    var first := ParseAssign(s);
    if !first.Parsed? then first
    else if first.rest.Kind() == T_COMMA then
      var more := ParseElems(first.rest);
      if !more.Parsed? then more.Failed()
      else if more.rest.Kind() != T_RPAREN then Fatal
      else Parsed(ETuple([first.value] + more.value), more.rest.Next())
    else if first.rest.Kind() != T_RPAREN then Fatal
    else Parsed(first.value, first.rest.Next())
  }

  /** The rest of a tuple, from a comma on. */
  function ParseElems(s: Stream): (r: Parse<seq<Expr>>)
    ensures NotLonger(r, s)
    decreases s.Len(), 32
  {
    if s.Kind() != T_COMMA then Parsed([], s)
    else if s.Next().Kind() == T_RPAREN then Parsed([], s.Next())
    else
      var e := ParseAssign(s.Next());
      if !e.Parsed? then e.Failed() else
      var more := ParseElems(e.rest);
      if more.Parsed? then Parsed([e.value] + more.value, more.rest) else more
  }

  // ----- Printing: the tokens of an expression, in front of what follows -----

  function Strength(e: Expr): int {
    match e
    case EAssign(_, _, _) => ASSIGN
    case EDecl(_, _) => ASSIGN
    case EDeclInit(_, _, _) => ASSIGN
    case ETern(_, _, _) => TERNARY
    case EBin(op, _, _) => OpStrength(op)
    case EUn(_, _) => UNARY
    case EDeref(_) => UNARY
    case EBorrow(_) => UNARY
    case ECall(_, _) => POSTFIX
    case EIndex(_, _) => POSTFIX
    case EAppend(_) => POSTFIX
    case EField(_, _) => POSTFIX
    case EMethod(_, _, _) => POSTFIX
    case _ => ATOM
  }

  /** Does the expression end in a variable that is parsed as an assignment? In front of `: T` it
      would be read as a typed declaration. */
  predicate EndsInVar(e: Expr) {
    match e
    case EVar(_) => true
    case EAssign(op, _, v) => op != T_QQASSIGN && EndsInVar(v)
    case EDeclInit(_, _, v) => EndsInVar(v)
    case _ => false
  }

  /** e where an operand of strength at least p is wanted. */
  function Print(e: Expr, p: int, rest: Stream): Stream
    decreases e, 2
  {
    if Strength(e) >= p then Bare(e, rest) else Before(T_LPAREN, Bare(e, Before(T_RPAREN, rest)))
  }

  function PrintThen(e: Expr, rest: Stream): Stream
    decreases e, 2
  {
    if EndsInVar(e) then Before(T_LPAREN, Bare(e, Before(T_RPAREN, rest))) else Bare(e, rest)
  }

  /** Calling what a field holds takes parentheses; without them it is a method call. */
  function CalleeStrength(fn: Expr): int { if fn.EField? then ATOM else POSTFIX }

  function Var(x: Word): Token { Token(T_VAR, x, 0) }

  function Bare(e: Expr, rest: Stream): Stream
    decreases e, 1
  {
    match e
    case EInt(n) => More(Token(T_INT, OtherWord(""), n), rest)
    case EStr(t) => More(Token(T_STR, t, 0), rest)
    case EBool(b) => Before(if b then T_HPHP_TRUE else T_HPHP_FALSE, rest)
    case ENull => Before(T_HPHP_NULL, rest)
    case EVar(x) => More(Var(x), rest)
    case ETuple(es) =>
      if |es| == 1 then Before(T_LPAREN, Print(es[0], ASSIGN, Before(T_COMMA, Before(T_RPAREN, rest))))
      else Before(T_LPAREN, PrintArgs(es, Before(T_RPAREN, rest)))
    case ECallName(f, args) => More(Name(f), Before(T_LPAREN, PrintArgs(args, Before(T_RPAREN, rest))))
    case ECall(fn, args) => Print(fn, CalleeStrength(fn), Before(T_LPAREN, PrintArgs(args, Before(T_RPAREN, rest))))
    case EIndex(o, i) => Print(o, POSTFIX, Before(T_LBRACKET, Print(i, ASSIGN, Before(T_RBRACKET, rest))))
    case EAppend(o) => Print(o, POSTFIX, Before(T_LBRACKET, Before(T_RBRACKET, rest)))
    case EField(o, name) => Print(o, POSTFIX, Before(T_ARROW, More(Name(name), rest)))
    case EMethod(o, name, args) =>
      Print(o, POSTFIX, Before(T_ARROW, More(Name(name), Before(T_LPAREN, PrintArgs(args, Before(T_RPAREN, rest))))))
    case EUn(op, o) => Before(op, Print(o, UNARY, rest))
    case EDeref(o) => Before(T_STAR, Print(o, UNARY, rest))
    case EBorrow(o) => Before(T_AMP, Print(o, UNARY, rest))
    case EBin(op, l, r) =>
      if op == T_POW then Print(l, UNARY, Before(T_POW, Print(r, POWER, rest)))
      else if op == T_QUESTIONQUESTION then Print(l, BINARY, Before(op, Print(r, TERNARY, rest)))
      else Print(l, OpStrength(op), Before(op, Print(r, OpStrength(op) + 1, rest)))
    case ETern(c, t, e') =>
      Print(c, BINARY, Before(T_QUESTION, PrintThen(t, Before(T_COLON, Print(e', TERNARY, rest)))))
    case EAssign(op, t, v) =>
      Print(t, TERNARY, Before(op, Print(v, if op == T_QQASSIGN then TERNARY else ASSIGN, rest)))
    case EDecl(x, ty) => More(Var(x), Before(T_COLON, PrintType(ty, rest)))
    case EDeclInit(x, ty, v) =>
      More(Var(x), Before(T_COLON, PrintType(ty, Before(T_ASSIGN, Print(v, ASSIGN, rest)))))
  }

  function PrintArgs(es: seq<Expr>, rest: Stream): Stream
    decreases es, 0
  {
    if es == [] then rest
    else if |es| == 1 then Print(es[0], ASSIGN, rest)
    else Print(es[0], ASSIGN, Before(T_COMMA, PrintArgs(es[1..], rest)))
  }

  // ----- Trees the parser can build -----

  /** The operand of a borrow starts with a variable or with another borrow. */
  predicate Borrowable(e: Expr)
    decreases e, 0
  {
    match e
    case EVar(_) => true
    case EBorrow(_) => true
    case ECall(fn, _) => !fn.EField? && BorrowableObject(fn)
    case EIndex(o, _) => BorrowableObject(o)
    case EAppend(o) => BorrowableObject(o)
    case EField(o, _) => BorrowableObject(o)
    case EMethod(o, _, _) => BorrowableObject(o)
    case _ => false
  }

  predicate BorrowableObject(e: Expr)
    decreases e, 1
  {
    !e.EBorrow? && Borrowable(e)
  }

  predicate WellFormed(e: Expr)
    decreases e, 1
  {
    match e
    case ETuple(es) => WellFormedAll(es)
    case ECallName(_, args) => WellFormedAll(args)
    case ECall(fn, args) => WellFormed(fn) && WellFormedAll(args)
    case EIndex(o, i) => WellFormed(o) && WellFormed(i)
    case EAppend(o) => WellFormed(o)
    case EField(o, _) => WellFormed(o)
    case EMethod(o, _, args) => WellFormed(o) && WellFormedAll(args)
    case EUn(op, o) => IsPrefixOp(op) && WellFormed(o)
    case EDeref(o) => WellFormed(o)
    case EBorrow(o) => Borrowable(o) && WellFormed(o)
    case EBin(op, l, r) =>
      (op == T_QUESTIONQUESTION || BINARY <= OpStrength(op)) && WellFormed(l) && WellFormed(r)
    case ETern(c, t, e') => WellFormed(c) && WellFormed(t) && WellFormed(e')
    case EAssign(op, t, v) => IsAssignOp(op) && WellFormed(t) && WellFormed(v)
    case EDecl(_, ty) => Printable(ty)
    case EDeclInit(_, ty, v) => Printable(ty) && WellFormed(v)
    case _ => true
  }

  predicate WellFormedAll(es: seq<Expr>)
    decreases es, 0
  {
    es == [] || (WellFormed(es[0]) && WellFormedAll(es[1..]))
  }
}
