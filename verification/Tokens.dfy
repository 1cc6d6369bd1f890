/** Tokens and the token cursor shared by the parser's functions. */
module Tokens {

  /** Token kinds, numbered as in the C enumeration. */
  type TokKind = int

  const T_EOF: TokKind := 0
  const T_ERROR: TokKind := 1
  const T_IDENT: TokKind := 2
  const T_VAR: TokKind := 3
  const T_INT: TokKind := 4
  const T_FLOAT: TokKind := 5
  const T_STR: TokKind := 6
  const T_TPL: TokKind := 7
  const T_KW_FN: TokKind := 8
  const T_KW_LET: TokKind := 9
  const T_KW_MUT: TokKind := 10
  const T_KW_OWN: TokKind := 11
  const T_KW_UNSAFE: TokKind := 12
  const T_KW_MATCH: TokKind := 13
  const T_KW_IF: TokKind := 14
  const T_KW_ELSE: TokKind := 15
  const T_KW_ELSEIF: TokKind := 16
  const T_KW_WHILE: TokKind := 17
  const T_KW_FOR: TokKind := 18
  const T_KW_FOREACH: TokKind := 19
  const T_KW_AS: TokKind := 20
  const T_KW_IN: TokKind := 21
  const T_KW_RETURN: TokKind := 22
  const T_KW_ECHO: TokKind := 23
  const T_KW_PRINT: TokKind := 24
  const T_KW_BREAK: TokKind := 25
  const T_KW_CONTINUE: TokKind := 26
  const T_KW_CLASS: TokKind := 27
  const T_KW_EXTENDS: TokKind := 28
  const T_KW_IMPLEMENTS: TokKind := 29
  const T_KW_INTERFACE: TokKind := 30
  const T_KW_TRAIT: TokKind := 31
  const T_KW_NEW: TokKind := 32
  const T_KW_THIS: TokKind := 33
  const T_KW_SELF: TokKind := 34
  const T_KW_PARENT: TokKind := 35
  const T_KW_PUBLIC: TokKind := 36
  const T_KW_PROTECTED: TokKind := 37
  const T_KW_PRIVATE: TokKind := 38
  const T_KW_STATIC: TokKind := 39
  const T_KW_ABSTRACT: TokKind := 40
  const T_KW_FINAL: TokKind := 41
  const T_KW_CONST: TokKind := 42
  const T_KW_ENUM: TokKind := 43
  const T_KW_IMPORT: TokKind := 44
  const T_KW_EXPORT: TokKind := 45
  const T_KW_USE: TokKind := 46
  const T_KW_FUNCTION: TokKind := 47
  const T_KW_GLOBAL: TokKind := 48
  const T_KW_TRY: TokKind := 49
  const T_HPHP_THROW: TokKind := 50
  const T_HPHP_CATCH: TokKind := 51
  const T_HPHP_FINALLY: TokKind := 52
  const T_HPHP_YIELD: TokKind := 53
  const T_KW_SWITCH: TokKind := 54
  const T_KW_CASE: TokKind := 55
  const T_KW_DEFAULT: TokKind := 56
  const T_KW_DO: TokKind := 57
  const T_KW_ARROW: TokKind := 58
  const T_HPHP_TRUE: TokKind := 59
  const T_HPHP_FALSE: TokKind := 60
  const T_HPHP_NULL: TokKind := 61
  const T_LPAREN: TokKind := 62
  const T_RPAREN: TokKind := 63
  const T_LBRACE: TokKind := 64
  const T_RBRACE: TokKind := 65
  const T_LBRACKET: TokKind := 66
  const T_RBRACKET: TokKind := 67
  const T_COMMA: TokKind := 68
  const T_SEMI: TokKind := 69
  const T_COLON: TokKind := 70
  const T_COLONCOLON: TokKind := 71
  const T_ARROW: TokKind := 72
  const T_DOUBLEARROW: TokKind := 73
  const T_FATARROW: TokKind := 74
  const T_PLUS: TokKind := 75
  const T_MINUS: TokKind := 76
  const T_STAR: TokKind := 77
  const T_SLASH: TokKind := 78
  const T_PERCENT: TokKind := 79
  const T_POW: TokKind := 80
  const T_ASSIGN: TokKind := 81
  const T_PLUSASSIGN: TokKind := 82
  const T_MINUSASSIGN: TokKind := 83
  const T_STARASSIGN: TokKind := 84
  const T_SLASHASSIGN: TokKind := 85
  const T_PERCENTASSIGN: TokKind := 86
  const T_DOTASSIGN: TokKind := 87
  const T_POWASSIGN: TokKind := 88
  const T_SHLASSIGN: TokKind := 89
  const T_SHRASSIGN: TokKind := 90
  const T_SHL: TokKind := 91
  const T_SHR: TokKind := 92
  const T_EQ: TokKind := 93
  const T_NEQ: TokKind := 94
  const T_EQ2: TokKind := 95
  const T_NEQ2: TokKind := 96
  const T_SPACESHIP: TokKind := 97
  const T_LT: TokKind := 98
  const T_GT: TokKind := 99
  const T_LE: TokKind := 100
  const T_GE: TokKind := 101
  const T_ANDAND: TokKind := 102
  const T_OROR: TokKind := 103
  const T_NOT: TokKind := 104
  const T_AMP: TokKind := 105
  const T_PIPE: TokKind := 106
  const T_CARET: TokKind := 107
  const T_TILDE: TokKind := 108
  const T_QUESTION: TokKind := 109
  const T_QUESTIONQUESTION: TokKind := 110
  const T_QUESTIONCOLON: TokKind := 111
  const T_QQASSIGN: TokKind := 112
  const T_DOT: TokKind := 113
  const T_INCR: TokKind := 114
  const T_DECR: TokKind := 115
  const T_AT: TokKind := 116
  const T_ELLIPSIS: TokKind := 117
  const T_HASH: TokKind := 118
  const T_BACKSLASH: TokKind := 119
  const T_NEWLINE: TokKind := 120
  const T_ANNOTATION: TokKind := 121

  datatype Prim = Int | I8 | I16 | I32 | I64 | Float | F32 | F64 | Bool | Text | Void | Mixed

  /** What a name means at the start of a type. */
  datatype NameKind =
    NArray | NPrim(p: Prim) | NCallable | NFn | NVec | NSet | NMap | NOption | NResult | NClass

  /** An interned identifier. The words of the type grammar and the contextual keywords have their own
      numbers, several spellings of one meaning are told apart, and every other text stands for itself. */
  datatype Word = TypeWord(kind: NameKind, spelling: nat) | MutWord | IsWord | AsWord | OtherWord(text: string)

  function Intern(n: string): Word {
    if n == "array" then TypeWord(NArray, 0) else if n == "list" then TypeWord(NArray, 1)
    else if n == "callable" then TypeWord(NCallable, 0) else if n == "fn" then TypeWord(NFn, 0)
    else if n == "Vec" then TypeWord(NVec, 0) else if n == "Set" then TypeWord(NSet, 0)
    else if n == "Map" then TypeWord(NMap, 0) else if n == "map" then TypeWord(NMap, 1)
    else if n == "dict" then TypeWord(NMap, 2) else if n == "Option" then TypeWord(NOption, 0)
    else if n == "Result" then TypeWord(NResult, 0)
    else if n == "mut" then MutWord else if n == "is" then IsWord else if n == "as" then AsWord
    else InternPrim(n)
  }

  function InternPrim(n: string): Word {
    if n == "int" then TypeWord(NPrim(Int), 0)
    else if n == "i8" then TypeWord(NPrim(I8), 0) else if n == "u8" then TypeWord(NPrim(I8), 1)
    else if n == "i16" then TypeWord(NPrim(I16), 0) else if n == "u16" then TypeWord(NPrim(I16), 1)
    else if n == "i32" then TypeWord(NPrim(I32), 0) else if n == "u32" then TypeWord(NPrim(I32), 1)
    else if n == "i64" then TypeWord(NPrim(I64), 0) else if n == "u64" then TypeWord(NPrim(I64), 1)
    else if n == "usize" then TypeWord(NPrim(I64), 2) else if n == "isize" then TypeWord(NPrim(I64), 3)
    else InternWide(n)
  }

  function InternWide(n: string): Word {
    if n == "float" then TypeWord(NPrim(Float), 0) else if n == "double" then TypeWord(NPrim(Float), 1)
    else if n == "f32" then TypeWord(NPrim(F32), 0) else if n == "f64" then TypeWord(NPrim(F64), 0)
    else if n == "bool" then TypeWord(NPrim(Bool), 0)
    else if n == "string" then TypeWord(NPrim(Text), 0) else if n == "str" then TypeWord(NPrim(Text), 1)
    else if n == "void" then TypeWord(NPrim(Void), 0) else if n == "mixed" then TypeWord(NPrim(Mixed), 0)
    else OtherWord(n)
  }

  function Spelling(w: Word): string {
    match w
    case TypeWord(NArray, i) => if i == 0 then "array" else "list"
    case TypeWord(NPrim(Int), _) => "int"
    case TypeWord(NPrim(I8), i) => if i == 0 then "i8" else "u8"
    case TypeWord(NPrim(I16), i) => if i == 0 then "i16" else "u16"
    case TypeWord(NPrim(I32), i) => if i == 0 then "i32" else "u32"
    case TypeWord(NPrim(I64), i) => if i == 0 then "i64" else if i == 1 then "u64" else if i == 2 then "usize" else "isize"
    case TypeWord(NPrim(Float), i) => if i == 0 then "float" else "double"
    case TypeWord(NPrim(F32), _) => "f32"
    case TypeWord(NPrim(F64), _) => "f64"
    case TypeWord(NPrim(Bool), _) => "bool"
    case TypeWord(NPrim(Text), i) => if i == 0 then "string" else "str"
    case TypeWord(NPrim(Void), _) => "void"
    case TypeWord(NPrim(Mixed), _) => "mixed"
    case TypeWord(NCallable, _) => "callable"
    case TypeWord(NFn, _) => "fn"
    case TypeWord(NVec, _) => "Vec"
    case TypeWord(NSet, _) => "Set"
    case TypeWord(NMap, i) => if i == 0 then "Map" else if i == 1 then "map" else "dict"
    case TypeWord(NOption, _) => "Option"
    case TypeWord(NResult, _) => "Result"
    case TypeWord(NClass, _) => ""
    case MutWord => "mut"
    case IsWord => "is"
    case AsWord => "as"
    case OtherWord(n) => n
  }

  /** Interning loses nothing: two identifiers are the same word only if they are spelled the same. */
  lemma SpellingUndoesIntern(n: string)
    ensures Spelling(Intern(n)) == n
  {
    SpellingUndoesInternPrim(n);
  }

  lemma SpellingUndoesInternPrim(n: string)
    ensures Spelling(InternPrim(n)) == n
  {
    SpellingUndoesInternWide(n);
  }

  lemma SpellingUndoesInternWide(n: string)
    ensures Spelling(InternWide(n)) == n
  {
  }

  /** The text of identifiers, variables and strings, the value of integers. */
  datatype Token = Token(kind: TokKind, text: Word, ival: int)

  function Punct(k: TokKind): Token { Token(k, OtherWord(""), 0) }

  /** What is left of a token stream. The end marker is never passed: it stands for itself forever. */
  datatype Stream = End | More(head: Token, tail: Stream) {
    function Kind(): TokKind { if End? then T_EOF else head.kind }

    function Next(): (r: Stream)
      ensures r.Len() <= Len() && (More? ==> r.Len() < Len())
    {
      if End? then End else tail
    }

    predicate IsIdent(name: Word) { More? && head.kind == T_IDENT && head.text == name }

    function Len(): nat { if End? then 0 else 1 + tail.Len() }
  }

  /** The end of a parsing function: a value and what is left, the compiler's fatal error, or a
      construct this model leaves out. */
  datatype Parse<+T> = Parsed(value: T, rest: Stream) | Fatal | Outside {
    function Failed<U>(): Parse<U>
      requires !Parsed?
    {
      if Fatal? then Fatal else Outside
    }
  }

  /** The tokens from position i on; the last one is the end marker. */
  function Suffix(toks: seq<Token>, i: nat): Stream
    requires i < |toks|
    decreases |toks| - i
  {
    if i == |toks| - 1 then End else More(toks[i], Suffix(toks, i + 1))
  }

  /** The parser's token cursor. */
  class TokenStream {
    const toks: seq<Token>
    var idx: nat

    ghost predicate Valid()
      reads this
    {
      idx < |toks| && toks[|toks| - 1].kind == T_EOF
    }

    ghost function Left(): Stream
      reads this
      requires Valid()
    {
      Suffix(toks, idx)
    }

    constructor (toks: seq<Token>)
      requires toks != [] && toks[|toks| - 1].kind == T_EOF
      ensures Valid() && Left() == Suffix(toks, 0) && this.toks == toks
    {
      this.toks := toks;
      idx := 0;
    }

    function Peek(n: nat): Token
      reads this
      requires Valid()
    {
      toks[if idx + n < |toks| then idx + n else |toks| - 1]
    }

    predicate Check(k: TokKind)
      reads this
      requires Valid()
      ensures Check(k) == (Left().Kind() == k)
    {
      Peek(0).kind == k
    }

    predicate AtIdent(name: Word)
      reads this
      requires Valid()
      ensures AtIdent(name) == Left().IsIdent(name)
    {
      Peek(0).kind == T_IDENT && Peek(0).text == name
    }

    /** The second and third token of lookahead. */
    lemma PeekAhead()
      requires Valid()
      ensures Peek(1).kind == Left().Next().Kind() && Peek(2).kind == Left().Next().Next().Kind()
    {
      if idx + 1 < |toks| { assert Left().Next() == Suffix(toks, idx + 1); }
      if idx + 2 < |toks| { assert Left().Next().Next() == Suffix(toks, idx + 2); }
    }

    method Advance() returns (t: Token)
      requires Valid()
      modifies this
      ensures Valid() && Left() == old(Left()).Next()
      ensures old(Left()).More? ==> t == old(Left()).head
    {
      t := Peek(0);
      if idx < |toks| - 1 { idx := idx + 1; }
    }

    method Match(k: TokKind) returns (ok: bool)
      requires Valid()
      modifies this
      ensures Valid() && ok == (old(Left()).Kind() == k)
      ensures Left() == if ok then old(Left()).Next() else old(Left())
    {
      ok := Check(k);
      if ok { var _ := Advance(); }
    }
  }
}
