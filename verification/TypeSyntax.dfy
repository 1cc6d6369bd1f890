/** Type annotations: what the parser makes of their tokens, what the compiler prints for them,
    and exactly which types survive the trip. */
module TypeSyntax {
  import opened Tokens

  datatype Type =
    | TPrim(p: Prim)
    | TArray(elem: Type) | TVec(elem: Type) | TSet(elem: Type) | TOption(elem: Type)
    | TMap(key: Type, val: Type) | TResult(ok: Type, err: Type)
    | TRef(elem: Type) | TMutRef(elem: Type) | TPtr(elem: Type) | TOwn(elem: Type) | TRc(elem: Type)
    | TFn(params: seq<Type>, variadic: bool, ret: Type)
    | TClass(name: Word)

  // ----- Parsing -----

  function KindOfName(n: Word): NameKind { if n.TypeWord? then n.kind else NClass }

  predicate Shorter<T>(r: Parse<T>, ts: Stream) {
    r.Parsed? ==> r.rest.Len() < ts.Len()
  }

  predicate NotLonger<T>(r: Parse<T>, ts: Stream) {
    r.Parsed? ==> r.rest.Len() <= ts.Len()
  }

  datatype Prefix = PRef | PMutRef | POwn | PPtr

  function Under(p: Prefix, r: Parse<Type>): Parse<Type> {
    if !r.Parsed? then Fatal else
    Parsed(match p
           case PRef => TRef(r.value)
           case PMutRef => TMutRef(r.value)
           case POwn => TOwn(r.value)
           case PPtr => TPtr(r.value), r.rest)
  }

  function ParseType(ts: Stream): (r: Parse<Type>)
    ensures Shorter(r, ts)
    decreases ts.Len(), 1
  {
    var k := ts.Kind();
    if k == T_AMP then
      if ts.Next().IsIdent(MutWord) then Under(PMutRef, ParseType(ts.Next().Next())) else Under(PRef, ParseType(ts.Next()))
    else if k == T_KW_OWN then Under(POwn, ParseType(ts.Next()))
    else if k == T_STAR then Under(PPtr, ParseType(ts.Next()))
    else if k == T_LBRACKET then ParseArray(ts.Next())
    else if k == T_KW_FN then ParseNamed(TypeWord(NFn, 0), ts.Next())
    else if k == T_IDENT then ParseNamed(ts.head.text, ts.Next())
    else Fatal
  }

  /** After `[`. */
  function ParseArray(ts: Stream): (r: Parse<Type>)
    ensures Shorter(r, ts)
    decreases ts.Len(), 2
  {
    var el := ParseType(ts);
    if !el.Parsed? || el.rest.Kind() != T_RBRACKET then Fatal else Parsed(TArray(el.value), el.rest.Next())
  }

  /** After a type name. */
  function ParseNamed(n: Word, ts: Stream): (r: Parse<Type>)
    ensures NotLonger(r, ts)
    decreases ts.Len(), 4
  {
    var paren, angle := ts.Kind() == T_LPAREN, ts.Kind() == T_LT;
    match KindOfName(n)
    case NArray => Parsed(TArray(TPrim(Mixed)), ts)
    case NPrim(p) => Parsed(TPrim(p), ts)
    case NCallable => if paren then ParseFn(ts.Next()) else Parsed(TFn([], true, TPrim(Mixed)), ts)
    case NFn => if paren then ParseFn(ts.Next()) else Parsed(TClass(n), ts)
    case NMap => if angle then ParseMap(ts.Next()) else Parsed(TMap(TPrim(Mixed), TPrim(Mixed)), ts)
    case NResult => if angle then ParseResult(ts.Next()) else Parsed(TResult(TPrim(Mixed), TPrim(Text)), ts)
    case NClass => Parsed(TClass(n), ts)
    case k => if angle then ParseWrapped(k, ts.Next()) else Parsed(Wrap(k, TPrim(Mixed)), ts)
  }

  function Wrap(k: NameKind, el: Type): Type {
    if k.NVec? then TVec(el) else if k.NSet? then TSet(el) else TOption(el)
  }

  /** After `Vec<`, `Set<` or `Option<`. */
  function ParseWrapped(k: NameKind, ts: Stream): (r: Parse<Type>)
    ensures Shorter(r, ts)
    decreases ts.Len(), 2
  {
    var el := ParseType(ts);
    if !el.Parsed? || el.rest.Kind() != T_GT then Fatal else Parsed(Wrap(k, el.value), el.rest.Next())
  }

  /** After `Map<`. */
  function ParseMap(ts: Stream): (r: Parse<Type>)
    ensures Shorter(r, ts)
    decreases ts.Len(), 2
  {
    var k := ParseType(ts);
    if !k.Parsed? || k.rest.Kind() != T_COMMA then Fatal else
    var v := ParseType(k.rest.Next());
    if !v.Parsed? || v.rest.Kind() != T_GT then Fatal else
    Parsed(TMap(k.value, v.value), v.rest.Next())
  }

  /** After `Result<`; the error type may be left out. */
  function ParseResult(ts: Stream): (r: Parse<Type>)
    ensures Shorter(r, ts)
    decreases ts.Len(), 2
  {
    var ok := ParseType(ts);
    if !ok.Parsed? then Fatal else
    var err := if ok.rest.Kind() == T_COMMA then ParseType(ok.rest.Next()) else Parsed(TPrim(Text), ok.rest);
    if !err.Parsed? || err.rest.Kind() != T_GT then Fatal else
    Parsed(TResult(ok.value, err.value), err.rest.Next())
  }

  /** After `fn(`. */
  function ParseFn(ts: Stream): (r: Parse<Type>)
    ensures Shorter(r, ts)
    decreases ts.Len(), 3
  {
    var ps := ParseParams(ts);
    if !ps.Parsed? || ps.rest.Kind() != T_RPAREN then Fatal else
    ParseReturn(ps.value, ps.rest.Next())
  }

  /** The return type of a function type; it may be left out. */
  function ParseReturn(ps: seq<Type>, ts: Stream): (r: Parse<Type>)
    ensures NotLonger(r, ts)
    decreases ts.Len(), 2
  {
    if ts.Kind() != T_ARROW then Parsed(TFn(ps, false, TPrim(Void)), ts) else
    var ret := ParseType(ts.Next());
    if !ret.Parsed? then Fatal else Parsed(TFn(ps, false, ret.value), ret.rest)
  }

  /** Parameter types up to the closing parenthesis, which is left in place. */
  function ParseParams(ts: Stream): (r: Parse<seq<Type>>)
    ensures NotLonger(r, ts)
    decreases ts.Len(), 2
  {
    if ts.Kind() == T_RPAREN || ts.Kind() == T_EOF then Parsed([], ts) else
    var p := ParseType(ts);
    if !p.Parsed? then Fatal
    else if p.rest.Kind() != T_COMMA then Parsed([p.value], p.rest)
    else
      var ps := ParseParams(p.rest.Next());
      if !ps.Parsed? then ps else Parsed([p.value] + ps.value, ps.rest)
  }

  // ----- Printing: the tokens of a type, in front of what follows -----

  function TypeName(k: NameKind): Token { Name(TypeWord(k, 0)) }

  function Name(n: Word): Token { Token(T_IDENT, n, 0) }

  function Before(k: TokKind, rest: Stream): Stream { More(Punct(k), rest) }

  function Angled(n: Token, inside: Stream): Stream { More(n, Before(T_LT, inside)) }

  function PrintType(t: Type, rest: Stream): Stream
    decreases t, 1
  {
    match t
    case TPrim(p) => More(TypeName(NPrim(p)), rest)
    case TArray(el) => Before(T_LBRACKET, PrintType(el, Before(T_RBRACKET, rest)))
    case TVec(el) => Angled(TypeName(NVec), PrintType(el, Before(T_GT, rest)))
    case TSet(el) => Angled(TypeName(NSet), PrintType(el, Before(T_GT, rest)))
    case TOption(el) => Angled(TypeName(NOption), PrintType(el, Before(T_GT, rest)))
    case TRc(el) => Angled(Name(OtherWord("Rc")), PrintType(el, Before(T_GT, rest)))
    case TMap(k, v) => Angled(TypeName(NMap), PrintType(k, Before(T_COMMA, PrintType(v, Before(T_GT, rest)))))
    case TResult(ok, err) => Angled(TypeName(NResult), PrintType(ok, Before(T_COMMA, PrintType(err, Before(T_GT, rest)))))
    case TRef(el) => Before(T_AMP, PrintType(el, rest))
    case TMutRef(el) => Before(T_AMP, Before(T_KW_MUT, PrintType(el, rest)))
    case TPtr(el) => Before(T_STAR, PrintType(el, rest))
    case TOwn(el) => Before(T_KW_OWN, PrintType(el, rest))
    case TFn(ps, _, ret) =>
      var after := if ret == TPrim(Void) then rest else Before(T_ARROW, PrintType(ret, rest));
      Before(T_KW_FN, Before(T_LPAREN, PrintParams(ps, Before(T_RPAREN, after))))
    case TClass(n) => More(Name(n), rest)
  }

  function PrintParams(ps: seq<Type>, rest: Stream): Stream
    decreases ps, 0
  {
    if ps == [] then rest
    else if |ps| == 1 then PrintType(ps[0], rest)
    else PrintType(ps[0], Before(T_COMMA, PrintParams(ps[1..], rest)))
  }

  // ----- The round trip -----

  /** Names the parser does not read as the name of a class. */
  predicate Reserved(n: Word) { !KindOfName(n).NClass? && !KindOfName(n).NFn? }

  /** Types that printing keeps: no `&mut` (it lexes as a keyword, the parser looks for a name), no
      `Rc<...>` (the parser does not know it), no `callable`, no class with a reserved name and no
      reference to a class called mut. */
  predicate Printable(t: Type)
    decreases t, 1
  {
    match t
    case TPrim(_) => true
    case TArray(el) => Printable(el)
    case TVec(el) => Printable(el)
    case TSet(el) => Printable(el)
    case TOption(el) => Printable(el)
    case TMap(k, v) => Printable(k) && Printable(v)
    case TResult(ok, err) => Printable(ok) && Printable(err)
    case TRef(el) => Printable(el) && el != TClass(MutWord)
    case TPtr(el) => Printable(el)
    case TOwn(el) => Printable(el)
    case TMutRef(_) => false
    case TRc(_) => false
    case TFn(ps, variadic, ret) => !variadic && AllPrintable(ps) && Printable(ret)
    case TClass(n) => !Reserved(n)
  }

  predicate AllPrintable(ps: seq<Type>)
    decreases ps, 0
  {
    ps == [] || (Printable(ps[0]) && AllPrintable(ps[1..]))
  }

  /** What follows a type must not look like the parameters or the return type of a function type. */
  predicate AfterType(rest: Stream) { rest.Kind() != T_ARROW && rest.Kind() != T_LPAREN }

  /** A printed type starts neither like the end of a parameter list nor, but for one class, with mut. */
  lemma FirstToken(t: Type, rest: Stream)
    ensures var s := PrintType(t, rest);
            && s.Kind() != T_EOF && s.Kind() != T_RPAREN
            && (s.IsIdent(MutWord) <==> t == TClass(MutWord))
  {
  }

  /** Parsing gives t back and stops in front of rest if the type is good, and does not give t back if it is not. */
  predicate Trips(t: Type, good: bool, r: Parse<Type>, rest: Stream) {
    (good ==> r == Parsed(t, rest)) && (r.Parsed? && r.value == t ==> good)
  }

  // The steps of the round trip: what holds of the parts holds of the whole.

  lemma WrappedStep(k: NameKind, el: Type, good: bool, inner: Stream, rest: Stream)
    requires k.NVec? || k.NSet? || k.NOption?
    requires Trips(el, good, ParseType(inner), Before(T_GT, rest))
    ensures Trips(Wrap(k, el), good, ParseType(Angled(TypeName(k), inner)), rest)
  {
    assert ParseType(Angled(TypeName(k), inner)) == ParseWrapped(k, inner);
  }

  lemma MapStep(k: Type, goodK: bool, v: Type, goodV: bool, first: Stream, second: Stream, rest: Stream)
    requires Trips(k, goodK, ParseType(first), Before(T_COMMA, second))
    requires Trips(v, goodV, ParseType(second), Before(T_GT, rest))
    ensures Trips(TMap(k, v), goodK && goodV, ParseType(Angled(TypeName(NMap), first)), rest)
  {
    assert ParseType(Angled(TypeName(NMap), first)) == ParseMap(first);
  }

  lemma ResultStep(ok: Type, goodOk: bool, err: Type, goodErr: bool, first: Stream, second: Stream, rest: Stream)
    requires Trips(ok, goodOk, ParseType(first), Before(T_COMMA, second))
    requires Trips(err, goodErr, ParseType(second), Before(T_GT, rest))
    ensures Trips(TResult(ok, err), goodOk && goodErr, ParseType(Angled(TypeName(NResult), first)), rest)
  {
    assert ParseType(Angled(TypeName(NResult), first)) == ParseResult(first);
  }

  lemma ArrayStep(el: Type, good: bool, inner: Stream, rest: Stream)
    requires Trips(el, good, ParseType(inner), Before(T_RBRACKET, rest))
    ensures Trips(TArray(el), good, ParseType(Before(T_LBRACKET, inner)), rest)
  {
    assert ParseType(Before(T_LBRACKET, inner)) == ParseArray(inner);
  }

  lemma PrefixStep(p: Prefix, k: TokKind, el: Type, good: bool, inner: Stream, rest: Stream)
    requires (p.PRef? && k == T_AMP) || (p.PPtr? && k == T_STAR) || (p.POwn? && k == T_KW_OWN)
    requires Trips(el, good, ParseType(inner), rest)
    ensures Trips(Under(p, Parsed(el, rest)).value, good && !(p.PRef? && inner.IsIdent(MutWord)), ParseType(Before(k, inner)), rest)
  {
  }

  lemma FnStep(t: Type, goodPs: bool, goodRet: bool, params: Stream, after: Stream, ret: Stream, rest: Stream)
    requires t.TFn? && rest.Kind() != T_ARROW
    requires var r := ParseParams(params);
             (goodPs ==> r == Parsed(t.params, Before(T_RPAREN, after))) && (r.Parsed? && r.value == t.params ==> goodPs)
    requires if t.ret == TPrim(Void) then goodRet && after == rest
             else after == Before(T_ARROW, ret) && Trips(t.ret, goodRet, ParseType(ret), rest)
    ensures Trips(t, !t.variadic && goodPs && goodRet, ParseType(Before(T_KW_FN, Before(T_LPAREN, params))), rest)
  {
    assert ParseType(Before(T_KW_FN, Before(T_LPAREN, params))) == ParseFn(params);
    var ps := ParseParams(params);
    if ps.Parsed? && ps.value == t.params {
      assert ParseFn(params) == ParseReturn(t.params, after);
      assert ParseReturn(t.params, after)
          == if t.ret == TPrim(Void) then Parsed(TFn(t.params, false, TPrim(Void)), rest)
             else if !ParseType(ret).Parsed? then Fatal
             else Parsed(TFn(t.params, false, ParseType(ret).value), ParseType(ret).rest);
    } else if ps.Parsed? && ps.rest.Kind() == T_RPAREN {
      assert ParseFn(params) == ParseReturn(ps.value, ps.rest.Next());
      assert ParseReturn(ps.value, ps.rest.Next()).Parsed? ==> ParseReturn(ps.value, ps.rest.Next()).value.params == ps.value;
    }
  }

  lemma NameStep(n: Word, rest: Stream)
    ensures ParseType(More(Name(n), rest)) == ParseNamed(n, rest)
  {
  }

  /** Parsing a printed type gives that type back and uses up its tokens if the type is printable;
      if it is not, parsing gives something else. */
  lemma {:induction false} TypeRoundTrip(t: Type, rest: Stream)
    requires AfterType(rest)
    ensures Trips(t, Printable(t), ParseType(PrintType(t, rest)), rest)
    decreases t, 1
  {
    match t
    case TArray(el) =>
      TypeRoundTrip(el, Before(T_RBRACKET, rest));
      ArrayStep(el, Printable(el), PrintType(el, Before(T_RBRACKET, rest)), rest);
    case TVec(el) =>
      TypeRoundTrip(el, Before(T_GT, rest));
      WrappedStep(NVec, el, Printable(el), PrintType(el, Before(T_GT, rest)), rest);
    case TSet(el) =>
      TypeRoundTrip(el, Before(T_GT, rest));
      WrappedStep(NSet, el, Printable(el), PrintType(el, Before(T_GT, rest)), rest);
    case TOption(el) =>
      TypeRoundTrip(el, Before(T_GT, rest));
      WrappedStep(NOption, el, Printable(el), PrintType(el, Before(T_GT, rest)), rest);
    case TMap(k, v) =>
      var second := PrintType(v, Before(T_GT, rest));
      TypeRoundTrip(v, Before(T_GT, rest));
      TypeRoundTrip(k, Before(T_COMMA, second));
      MapStep(k, Printable(k), v, Printable(v), PrintType(k, Before(T_COMMA, second)), second, rest);
    case TResult(ok, err) =>
      var second := PrintType(err, Before(T_GT, rest));
      TypeRoundTrip(err, Before(T_GT, rest));
      TypeRoundTrip(ok, Before(T_COMMA, second));
      ResultStep(ok, Printable(ok), err, Printable(err), PrintType(ok, Before(T_COMMA, second)), second, rest);
    case TRef(el) =>
      TypeRoundTrip(el, rest);
      FirstToken(el, rest);
      PrefixStep(PRef, T_AMP, el, Printable(el), PrintType(el, rest), rest);
    case TPtr(el) =>
      TypeRoundTrip(el, rest);
      PrefixStep(PPtr, T_STAR, el, Printable(el), PrintType(el, rest), rest);
    case TOwn(el) =>
      TypeRoundTrip(el, rest);
      PrefixStep(POwn, T_KW_OWN, el, Printable(el), PrintType(el, rest), rest);
    case TFn(ps, _, ret) =>
      var after := if ret == TPrim(Void) then rest else Before(T_ARROW, PrintType(ret, rest));
      TypeRoundTrip(ret, rest);
      ParamsRoundTrip(ps, Before(T_RPAREN, after));
      FnStep(t, AllPrintable(ps), Printable(ret), PrintParams(ps, Before(T_RPAREN, after)), after, PrintType(ret, rest), rest);
    case TMutRef(el) => MutRefStep(PrintType(el, rest));
    case _ => NamedTrip(t, rest);
  }

  lemma NamedTrip(t: Type, rest: Stream)
    requires (t.TPrim? || t.TClass? || t.TRc?) && AfterType(rest)
    ensures Trips(t, Printable(t), ParseType(PrintType(t, rest)), rest)
  {
    match t
    case TPrim(p) => NameStep(TypeWord(NPrim(p), 0), rest);
    case TClass(n) => NameStep(n, rest);
    case TRc(el) => NameStep(OtherWord("Rc"), Before(T_LT, PrintType(el, Before(T_GT, rest))));
  }

  lemma MutRefStep(inner: Stream)
    ensures ParseType(Before(T_AMP, Before(T_KW_MUT, inner))) == Fatal
  {
  }

  lemma {:induction false} ParamsRoundTrip(ps: seq<Type>, rest: Stream)
    requires rest.Kind() == T_RPAREN
    ensures AllPrintable(ps) ==> ParseParams(PrintParams(ps, rest)) == Parsed(ps, rest)
    ensures var r := ParseParams(PrintParams(ps, rest)); r.Parsed? && r.value == ps ==> AllPrintable(ps)
    decreases ps, 0
  {
    if |ps| == 1 {
      FirstToken(ps[0], rest);
      TypeRoundTrip(ps[0], rest);
      assert ps == [ps[0]];
    } else if ps != [] {
      var tail := Before(T_COMMA, PrintParams(ps[1..], rest));
      FirstToken(ps[0], tail);
      TypeRoundTrip(ps[0], tail);
      ParamsRoundTrip(ps[1..], rest);
      assert ps == [ps[0]] + ps[1..];
    }
  }

  /** A type of each kind that is lost: `&mut int`, `Rc<int>`, `callable`, a class called int, `&mut` for a
      class called mut. */
  lemma LostTypes(t: Type)
    requires t in [TMutRef(TPrim(Int)), TRc(TPrim(Int)), TFn([], true, TPrim(Mixed)), TClass(TypeWord(NPrim(Int), 0)), TRef(TClass(MutWord))]
    ensures ParseType(PrintType(t, End)) != Parsed(t, End)
  {
    TypeRoundTrip(t, End);
  }
}
