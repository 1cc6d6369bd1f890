/** Which newlines of the raw token list survive: those that can end a statement. */
module NewlineFilter {
  import opened Basics
  import opened Tokens

  const DEPTH: nat := 256

  predicate IsAssign(k: TokKind) { T_ASSIGN <= k <= T_POWASSIGN }

  /** Operators that have an operand on either side. */
  predicate IsInfix(k: TokKind) {
    || k == T_ARROW || k == T_COLONCOLON || k == T_DOUBLEARROW || k == T_FATARROW || k == T_COLON
    || k == T_QUESTION || k == T_QUESTIONQUESTION || T_PLUS <= k <= T_POW || k == T_DOT || T_SHL <= k <= T_OROR
    || T_AMP <= k <= T_CARET
  }

  /** An expression cannot end here. */
  predicate NeedsOperand(k: TokKind) {
    || k == T_LPAREN || k == T_LBRACKET || k == T_COMMA || IsInfix(k) || IsAssign(k) || k == T_TILDE || k == T_NOT
    || k == T_KW_ECHO || k == T_KW_PRINT || k == T_HPHP_THROW || k == T_KW_NEW || k == T_KW_IF || k == T_KW_ELSEIF
    || k == T_KW_WHILE || k == T_KW_FOR || k == T_KW_FOREACH || k == T_KW_SWITCH || k == T_KW_TRY
    || k == T_HPHP_FINALLY || k == T_KW_DO || k == T_KW_MATCH || k == T_KW_AS || k == T_KW_USE || k == T_KW_ELSE
  }

  /** This belongs to the expression on its left. */
  predicate ContinuesWith(k: TokKind) {
    k == T_RPAREN || k == T_RBRACKET || k == T_COMMA || k == T_SEMI || IsInfix(k)
  }

  // ----- The bracket stack -----

  /** 'p' for a parenthesis or a square bracket, 'b' for a brace, 'n' for anything else. */
  function Opens(k: TokKind): char {
    if k == T_LPAREN || k == T_LBRACKET then 'p' else if k == T_LBRACE then 'b' else 'n'
  }

  function Closes(k: TokKind): char {
    if k == T_RPAREN || k == T_RBRACKET then 'p' else if k == T_RBRACE then 'b' else 'n'
  }

  predicate Top(stack: seq<char>, c: char) { stack != [] && stack[|stack| - 1] == c }

  /** The stack after a token; limit is its capacity. */
  function Step(limit: nat, stack: seq<char>, k: TokKind): (r: seq<char>)
    ensures |stack| <= limit ==> |r| <= limit
  {
    if Opens(k) != 'n' then
      if |stack| < limit then stack + [Opens(k)] else stack
    else if Closes(k) != 'n' && Top(stack, Closes(k)) then stack[..|stack| - 1]
    else stack
  }

  // ----- The filter -----

  datatype State = State(stack: seq<char>, prev: TokKind)

  const START: State := State([], T_EOF)

  function NextKind(raw: seq<Token>): TokKind {
    if raw == [] then T_EOF else if raw[0].kind != T_NEWLINE then raw[0].kind else NextKind(raw[1..])
  }

  /** A newline is swallowed in state s in front of rest. */
  predicate Swallows(s: State, rest: seq<Token>) {
    Top(s.stack, 'p') || NeedsOperand(s.prev) || ContinuesWith(NextKind(rest))
  }

  predicate Keeps(s: State, t: Token, rest: seq<Token>) { t.kind == T_NEWLINE ==> !Swallows(s, rest) }

  function After(s: State, t: Token, rest: seq<Token>): State {
    State(Step(DEPTH, s.stack, t.kind), if Keeps(s, t, rest) then t.kind else s.prev)
  }

  function Filter(s: State, raw: seq<Token>): seq<Token>
    decreases |raw|
  {
    if raw == [] then [] else
    (if Keeps(s, raw[0], raw[1..]) then [raw[0]] else []) + Filter(After(s, raw[0], raw[1..]), raw[1..])
  }

  /** The state in which the filter comes to the tokens of rest after those of front. */
  function Reached(s: State, front: seq<Token>, rest: seq<Token>): State
    decreases |front|
  {
    if front == [] then s else Reached(After(s, front[0], front[1..] + rest), front[1..], rest)
  }

  /** The loop as it runs: a bracket array of fixed size, its depth, and the last token kept. */
  method FilterNewlines(raw: seq<Token>) returns (toks: seq<Token>)
    ensures toks == Filter(START, raw)
  {
    toks := [];
    var stack := new char[DEPTH];
    var depth := 0;
    var prev := T_EOF;
    var i := 0;
    while i < |raw|
      invariant 0 <= i <= |raw| && 0 <= depth <= stack.Length == DEPTH
      invariant Filter(START, raw) == toks + Filter(State(stack[..depth], prev), raw[i..])
    {
      var k := raw[i].kind;
      ghost var s, rest := State(stack[..depth], prev), raw[i + 1..];
      depth := Track(stack, depth, k);
      var keep := true;
      if k == T_NEWLINE {
        var inBrackets := depth > 0 && stack[depth - 1] == 'p';
        assert stack[..depth] == s.stack;
        keep := EndsStatement(raw, i, s, prev, inBrackets);
      }
      ghost var before, after := toks, Filter(After(s, raw[i], rest), rest);
      if keep {
        toks := toks + [raw[i]];
        prev := k;
      }
      Regroup(before, if keep then [raw[i]] else [], after);
      i := i + 1;
    }
  }

  /** The newline at i is kept. */
  method EndsStatement(raw: seq<Token>, i: nat, ghost s: State, prev: TokKind, inBrackets: bool) returns (keep: bool)
    requires i < |raw| && raw[i].kind == T_NEWLINE && inBrackets == Top(s.stack, 'p') && prev == s.prev
    ensures keep == Keeps(s, raw[i], raw[i + 1..])
  {
    var next := LookPast(raw, i + 1);
    keep := !(inBrackets || NeedsOperand(prev) || ContinuesWith(next));
  }

  /** Opening and closing brackets on the stack; what finds no room or does not match is ignored. */
  method Track(stack: array<char>, depth: nat, k: TokKind) returns (r: nat)
    requires depth <= stack.Length == DEPTH
    modifies stack
    ensures r <= stack.Length && stack[..r] == Step(DEPTH, old(stack[..depth]), k)
  {
    r := depth;
    if k == T_LPAREN || k == T_LBRACKET {
      if r < stack.Length { stack[r] := 'p'; r := r + 1; }
    } else if k == T_LBRACE {
      if r < stack.Length { stack[r] := 'b'; r := r + 1; }
    } else if k == T_RPAREN || k == T_RBRACKET {
      if r > 0 && stack[r - 1] == 'p' { r := r - 1; }
    } else if k == T_RBRACE {
      if r > 0 && stack[r - 1] == 'b' { r := r - 1; }
    }
  }

  /** The kind of the first token from j on that is not a newline. */
  method LookPast(raw: seq<Token>, j: nat) returns (next: TokKind)
    requires j <= |raw|
    ensures next == NextKind(raw[j..])
  {
    var i := j;
    while i < |raw|
      invariant j <= i <= |raw|
      invariant NextKind(raw[j..]) == NextKind(raw[i..])
    {
      if raw[i].kind != T_NEWLINE { return raw[i].kind; }
      i := i + 1;
    }
    return T_EOF;
  }

  // ----- What the filter keeps -----

  function NonNewlines(raw: seq<Token>): seq<Token> {
    if raw == [] then [] else (if raw[0].kind == T_NEWLINE then [] else [raw[0]]) + NonNewlines(raw[1..])
  }

  /** Every token that is not a newline is kept, in order. */
  lemma {:induction false} TokensKept(s: State, raw: seq<Token>)
    ensures NonNewlines(Filter(s, raw)) == NonNewlines(raw)
    decreases |raw|
  {
    if raw != [] {
      var out := Filter(After(s, raw[0], raw[1..]), raw[1..]);
      TokensKept(After(s, raw[0], raw[1..]), raw[1..]);
      if Keeps(s, raw[0], raw[1..]) { assert ([raw[0]] + out)[1..] == out; }
      else { assert [] + out == out; }
    }
  }

  lemma {:induction false} NextOfNonNewlines(raw: seq<Token>)
    ensures NextKind(raw) == if NonNewlines(raw) == [] then T_EOF else NonNewlines(raw)[0].kind
  {
    if raw != [] && raw[0].kind == T_NEWLINE { NextOfNonNewlines(raw[1..]); }
  }

  /** Filtering does not change what comes next. */
  lemma SameNext(s: State, raw: seq<Token>)
    ensures NextKind(Filter(s, raw)) == NextKind(raw)
  {
    TokensKept(s, raw);
    NextOfNonNewlines(raw);
    NextOfNonNewlines(Filter(s, raw));
  }

  /** A second pass finds nothing more to drop. */
  lemma {:induction false} Idempotent(s: State, raw: seq<Token>)
    ensures Filter(s, Filter(s, raw)) == Filter(s, raw)
    decreases |raw|
  {
    if raw != [] {
      var s', rest := After(s, raw[0], raw[1..]), raw[1..];
      var out := Filter(s', rest);
      Idempotent(s', rest);
      if Keeps(s, raw[0], rest) {
        SameNext(s', rest);
        assert ([raw[0]] + out)[1..] == out;
        assert After(s, raw[0], out) == s';
      } else {
        assert [] + out == out && s' == s;
      }
    }
  }

  // ----- Inserting a newline -----

  /** What the filter lets through of front when back stands behind it. */
  function Passed(s: State, front: seq<Token>, back: seq<Token>): seq<Token>
    decreases |front|
  {
    if front == [] then [] else
    var rest := front[1..] + back;
    (if Keeps(s, front[0], rest) then [front[0]] else []) + Passed(After(s, front[0], rest), front[1..], back)
  }

  lemma {:induction false} FilterSplit(s: State, front: seq<Token>, back: seq<Token>)
    ensures Filter(s, front + back) == Passed(s, front, back) + Filter(Reached(s, front, back), back)
    decreases |front|
  {
    if front == [] {
      assert [] + back == back;
      assert [] + Filter(s, back) == Filter(s, back);
    } else {
      assert (front + back)[1..] == front[1..] + back;
      FilterSplit(After(s, front[0], front[1..] + back), front[1..], back);
    }
  }

  /** What stands behind counts only by its first token that is no newline. */
  lemma {:induction false} FrontSeesNextOnly(s: State, front: seq<Token>, back: seq<Token>, back': seq<Token>)
    requires NextKind(back) == NextKind(back')
    ensures Reached(s, front, back) == Reached(s, front, back') && Passed(s, front, back) == Passed(s, front, back')
    decreases |front|
  {
    if front != [] {
      SameNextBehind(front[1..], back, back');
      FrontSeesNextOnly(After(s, front[0], front[1..] + back), front[1..], back, back');
    }
  }

  lemma {:induction false} SameNextBehind(front: seq<Token>, back: seq<Token>, back': seq<Token>)
    requires NextKind(back) == NextKind(back')
    ensures NextKind(front + back) == NextKind(front + back')
  {
    if front == [] {
      assert [] + back == back && [] + back' == back';
    } else {
      SameNextBehind(front[1..], back, back');
      assert (front + back)[1..] == front[1..] + back && (front + back')[1..] == front[1..] + back';
    }
  }

  /** After a newline that was kept, the filter drops what it would have dropped anyway. */
  lemma {:induction false} NewlineIsNeutral(s: State, raw: seq<Token>)
    requires !NeedsOperand(s.prev)
    ensures Filter(State(s.stack, T_NEWLINE), raw) == Filter(s, raw)
  {
    if raw != [] && raw[0].kind == T_NEWLINE && Swallows(s, raw[1..]) { NewlineIsNeutral(s, raw[1..]); }
  }

  /** longer is plain with n put in somewhere. */
  predicate OneMore(longer: seq<Token>, n: Token, plain: seq<Token>) {
    exists k :: 0 <= k <= |plain| && longer == plain[..k] + ([n] + plain[k..])
  }

  lemma OneMoreThere(head: seq<Token>, n: Token, tail: seq<Token>)
    ensures OneMore(head + ([n] + tail), n, head + tail) && head + ([n] + tail) != head + tail
  {
    var plain := head + tail;
    assert plain[..|head|] == head && plain[|head|..] == tail;
    assert |head + ([n] + tail)| == |plain| + 1;
  }

  /** Inserting a newline between front and back changes the output exactly when it is not swallowed
      there, and then by that one newline. */
  lemma InsertedNewline(s: State, front: seq<Token>, n: Token, back: seq<Token>)
    requires n.kind == T_NEWLINE
    ensures Filter(s, front + ([n] + back)) == Filter(s, front + back) <==> Swallows(Reached(s, front, back), back)
    ensures !Swallows(Reached(s, front, back), back) ==> OneMore(Filter(s, front + ([n] + back)), n, Filter(s, front + back))
  {
    var all := [n] + back;
    assert all[1..] == back && NextKind(all) == NextKind(back);
    FilterSplit(s, front, back);
    FilterSplit(s, front, all);
    FrontSeesNextOnly(s, front, back, all);
    var r, head := Reached(s, front, back), Passed(s, front, back);
    if Swallows(r, back) {
      assert Filter(r, all) == [] + Filter(r, back);
      assert [] + Filter(r, back) == Filter(r, back);
    } else {
      NewlineIsNeutral(r, back);
      assert Filter(r, all) == [n] + Filter(r, back);
      OneMoreThere(head, n, Filter(r, back));
    }
  }

  // ----- The brackets a newline stands in -----

  function StackAfter(limit: nat, stack: seq<char>, raw: seq<Token>): seq<char>
    decreases |raw|
  {
    if raw == [] then stack else StackAfter(limit, Step(limit, stack, raw[0].kind), raw[1..])
  }

  lemma {:induction false} ReachedStack(s: State, front: seq<Token>, back: seq<Token>)
    ensures Reached(s, front, back).stack == StackAfter(DEPTH, s.stack, front)
    decreases |front|
  {
    if front != [] { ReachedStack(After(s, front[0], front[1..] + back), front[1..], back); }
  }

  /** The true nesting: the stack without a limit. */
  function TrueNesting(stack: seq<char>, raw: seq<Token>): seq<char>
    decreases |raw|
  {
    if raw == [] then stack else TrueNesting(Step(|stack| + 1, stack, raw[0].kind), raw[1..])
  }

  /** The true nesting stays within the limit all along raw. */
  predicate Within(stack: seq<char>, raw: seq<Token>)
    decreases |raw|
  {
    |stack| <= DEPTH && (raw == [] || Within(Step(|stack| + 1, stack, raw[0].kind), raw[1..]))
  }

  /** The array holds the true nesting all along raw. */
  predicate Faithful(held: seq<char>, nesting: seq<char>, raw: seq<Token>)
    decreases |raw|
  {
    held == nesting && (raw == [] || Faithful(Step(DEPTH, held, raw[0].kind), Step(|nesting| + 1, nesting, raw[0].kind), raw[1..]))
  }

  /** The array holds the true nesting exactly as long as the nesting fits it. */
  lemma {:induction false} StackIsTrueNesting(stack: seq<char>, raw: seq<Token>)
    requires |stack| <= DEPTH
    ensures Faithful(stack, stack, raw) <==> Within(stack, raw)
    ensures Within(stack, raw) ==> StackAfter(DEPTH, stack, raw) == TrueNesting(stack, raw)
    decreases |raw|
  {
    if raw != [] {
      var held, nesting := Step(DEPTH, stack, raw[0].kind), Step(|stack| + 1, stack, raw[0].kind);
      if |nesting| <= DEPTH {
        assert held == nesting;
        StackIsTrueNesting(held, raw[1..]);
      } else {
        assert held != nesting;
      }
    }
  }

  /** Well-nested tokens: plain ones and bracketed groups. */
  datatype Group = Plain(t: Token) | Nested(open: Token, inside: seq<Group>, close: Token)

  predicate Matched(g: Group)
    decreases g, 1
  {
    match g
    case Plain(t) => Opens(t.kind) == 'n' && Closes(t.kind) == 'n'
    case Nested(o, inside, c) => Opens(o.kind) != 'n' && Closes(c.kind) == Opens(o.kind) && AllMatched(inside)
  }

  predicate AllMatched(gs: seq<Group>)
    decreases gs, 0
  {
    gs == [] || (Matched(gs[0]) && AllMatched(gs[1..]))
  }

  function Flat(g: Group): seq<Token>
    decreases g, 1
  {
    match g
    case Plain(t) => [t]
    case Nested(o, inside, c) => [o] + AllFlat(inside) + [c]
  }

  function AllFlat(gs: seq<Group>): seq<Token>
    decreases gs, 0
  {
    if gs == [] then [] else Flat(gs[0]) + AllFlat(gs[1..])
  }

  function Depth(g: Group): nat
    decreases g, 1
  {
    match g
    case Plain(_) => 0
    case Nested(_, inside, _) => 1 + AllDepth(inside)
  }

  function AllDepth(gs: seq<Group>): nat
    decreases gs, 0
  {
    if gs == [] then 0 else
    if Depth(gs[0]) > AllDepth(gs[1..]) then Depth(gs[0]) else AllDepth(gs[1..])
  }

  lemma {:induction false} StackAppend(stack: seq<char>, a: seq<Token>, b: seq<Token>)
    ensures StackAfter(DEPTH, stack, a + b) == StackAfter(DEPTH, StackAfter(DEPTH, stack, a), b)
    decreases |a|
  {
    if a == [] { assert [] + b == b; } else {
      assert (a + b)[1..] == a[1..] + b;
      StackAppend(Step(DEPTH, stack, a[0].kind), a[1..], b);
    }
  }

  /** Well-nested tokens leave the stack as it was. */
  lemma {:induction false} GroupsAreNeutral(stack: seq<char>, gs: seq<Group>)
    requires AllMatched(gs) && |stack| + AllDepth(gs) <= DEPTH
    ensures StackAfter(DEPTH, stack, AllFlat(gs)) == stack
    decreases gs, 0
  {
    if gs != [] {
      GroupIsNeutral(stack, gs[0]);
      GroupsAreNeutral(stack, gs[1..]);
      StackAppend(stack, Flat(gs[0]), AllFlat(gs[1..]));
    }
  }

  lemma {:induction false} GroupIsNeutral(stack: seq<char>, g: Group)
    requires Matched(g) && |stack| + Depth(g) <= DEPTH
    ensures StackAfter(DEPTH, stack, Flat(g)) == stack
    decreases g, 1
  {
    match g
    case Plain(t) => assert StackAfter(DEPTH, stack, [t]) == StackAfter(DEPTH, stack, [t][1..]);
    case Nested(o, inside, c) =>
      var inner := stack + [Opens(o.kind)];
      GroupsAreNeutral(inner, inside);
      StackAppend(stack, [o] + AllFlat(inside), [c]);
      StackAppend(stack, [o], AllFlat(inside));
      assert [o][1..] == [] && [c][1..] == [];
      assert StackAfter(DEPTH, stack, [o]) == inner;
      assert StackAfter(DEPTH, inner, [c]) == Step(DEPTH, inner, c.kind);
      assert inner[..|inner| - 1] == stack;
  }

  /** Between an opening `(` or `[` and anything that follows it after whole groups, a newline never
      changes the output, whatever surrounds it and however it is nested, up to the depth limit. */
  lemma NewlineInsideBrackets(front: seq<Token>, open: Token, gs: seq<Group>, n: Token, back: seq<Token>)
    requires Opens(open.kind) == 'p' && AllMatched(gs) && n.kind == T_NEWLINE
    requires |StackAfter(DEPTH, [], front)| + 1 + AllDepth(gs) <= DEPTH
    ensures var before := front + ([open] + AllFlat(gs));
            Filter(START, before + ([n] + back)) == Filter(START, before + back)
  {
    var before := front + ([open] + AllFlat(gs));
    var outer := StackAfter(DEPTH, [], front);
    ReachedStack(START, before, back);
    StackAppend([], front, [open] + AllFlat(gs));
    StackAppend(outer, [open], AllFlat(gs));
    assert [open][1..] == [];
    assert StackAfter(DEPTH, outer, [open]) == outer + ['p'];
    GroupsAreNeutral(outer + ['p'], gs);
    InsertedNewline(START, before, n, back);
  }

  /** Past the limit the filter errs: inside `{` within 256 open parentheses a newline that ends a
      statement is swallowed, because the brace found no room on the stack. */
  lemma TooDeep(s: State, n: Token, rest: seq<Token>)
    requires |s.stack| == DEPTH && Top(s.stack, 'p') && n.kind == T_NEWLINE
    ensures Top(TrueNesting(s.stack, [Punct(T_LBRACE)]), 'b')
    ensures Filter(s, [Punct(T_LBRACE), n] + rest) == [Punct(T_LBRACE)] + Filter(State(s.stack, T_LBRACE), rest)
  {
    var raw := [Punct(T_LBRACE), n] + rest;
    assert raw[1..] == [n] + rest && ([n] + rest)[1..] == rest;
    var s' := State(s.stack, T_LBRACE);
    assert After(s, raw[0], raw[1..]) == s';
    assert Filter(s', [n] + rest) == [] + Filter(s', rest);
    assert [] + Filter(s', rest) == Filter(s', rest);
    assert [Punct(T_LBRACE)][1..] == [];
  }

  // ----- A brace inside open parentheses, from the start of a file -----

  function Parens(k: nat): seq<Token> { seq(k, _ => Punct(T_LPAREN)) }

  function BraceInside(k: nat): seq<Token> { Parens(k) + [Punct(T_LBRACE)] }

  /** The stack after them is full at the limit. */
  lemma {:induction false} ParensAreHeld(k: nat)
    ensures StackAfter(DEPTH, [], Parens(k)) == seq(if k < DEPTH then k else DEPTH, _ => 'p')
    decreases k
  {
    if k > 0 {
      ParensAreHeld(k - 1);
      assert Parens(k) == Parens(k - 1) + [Punct(T_LPAREN)];
      StackAppend([], Parens(k - 1), [Punct(T_LPAREN)]);
      assert [Punct(T_LPAREN)][1..] == [];
      assert StackAfter(DEPTH, [], Parens(k)) == Step(DEPTH, StackAfter(DEPTH, [], Parens(k - 1)), T_LPAREN);
    }
  }

  lemma {:induction false} ReachedPrev(s: State, front: seq<Token>, t: Token, back: seq<Token>)
    requires t.kind != T_NEWLINE
    ensures Reached(s, front + [t], back).prev == t.kind
    decreases |front|
  {
    var all := front + [t];
    if front == [] {
      assert all[1..] == [];
    } else {
      assert all[1..] == front[1..] + [t];
      ReachedPrev(After(s, all[0], all[1..] + back), front[1..], t, back);
    }
  }

  /** Behind k parentheses and a brace, a newline in front of a token that can start a statement does not
      count if and only if k is at least 256; in truth it always ends a statement there. */
  lemma BraceTooDeepIff(k: nat, n: Token, rest: seq<Token>)
    requires n.kind == T_NEWLINE && !ContinuesWith(NextKind(rest))
    ensures Filter(START, BraceInside(k) + ([n] + rest)) == Filter(START, BraceInside(k) + rest) <==> k >= DEPTH
    ensures Top(TrueNesting([], BraceInside(k)), 'b')
  {
    var brace := [Punct(T_LBRACE)];
    ParensAreHeld(k);
    StackAppend([], Parens(k), brace);
    assert brace[1..] == [];
    ReachedStack(START, BraceInside(k), rest);
    ReachedPrev(START, Parens(k), brace[0], rest);
    InsertedNewline(START, BraceInside(k), n, rest);
    BraceIsTrueTop([], k);
  }

  lemma {:induction false} BraceIsTrueTop(stack: seq<char>, k: nat)
    ensures Top(TrueNesting(stack, BraceInside(k)), 'b')
    decreases k
  {
    var all := BraceInside(k);
    if k == 0 {
      assert all[1..] == [];
    } else {
      assert all[1..] == BraceInside(k - 1);
      BraceIsTrueTop(stack + ['p'], k - 1);
    }
  }

  /** So 256 parentheses are enough to lose a statement end. */
  lemma StatementEndLost(n: Token, x: Token)
    requires n.kind == T_NEWLINE && x.kind == T_VAR
    ensures Filter(START, BraceInside(DEPTH) + [n, x]) == Filter(START, BraceInside(DEPTH) + [x])
    ensures Filter(START, BraceInside(DEPTH - 1) + [n, x]) != Filter(START, BraceInside(DEPTH - 1) + [x])
  {
    assert [n] + [x] == [n, x];
    BraceTooDeepIff(DEPTH, n, [x]);
    BraceTooDeepIff(DEPTH - 1, n, [x]);
  }
}
