/** Whole runs of the server engine: when every live connection owns exactly one operation, and what becomes
    of one that does not. */
module SlotRuns {
  import opened Bytes
  import opened SlotEngine

  /** The invariant allows one operation or waiting write at most; nothing is lost when there is exactly one. */
  lemma ExactlyOne(s: State)
    requires Inv(s)
    ensures NoneLost(s) <==> forall i :: 0 <= i < MAX_SLOTS && s.slots[i].state != Free ==> Owned(s, i) == 1
  {
    forall i | 0 <= i < MAX_SLOTS ensures Lost(s, i) <==> s.slots[i].state != Free && Owned(s, i) != 1 { assert SlotOk(s, i); }
  }

  // ----- A turn -----

  /** No handler lacks a submission entry or a place in the batch. */
  predicate NeverStarved(s: State, cs: seq<Completion>)
    requires InRange(s)
    decreases |cs|
  {
    cs == [] || (!Starved(s, cs[0]) && NeverStarved(Complete(s, cs[0]), cs[1..]))
  }

  /** Nor does the group commit behind them. */
  predicate Fed(s: State, t: Turn)
    requires InRange(s)
  {
    var s' := AfterCompletions(s, t);
    NeverStarved(s.(room := t.room), t.done) && |s'.pending| <= s'.room
  }

  predicate AllFed(s: State, ts: seq<Turn>)
    requires InRange(s)
    decreases |ts|
  {
    ts == [] || (Fed(s, ts[0]) && AllFed(Next(s, ts[0]), ts[1..]))
  }

  /** What is left to complete stays in flight. */
  lemma OneDone(s: State, cs: seq<Completion>)
    requires Inv(s) && cs != [] && Ops(cs) <= s.flight
    ensures cs[0].op in s.flight && Inv(Complete(s, cs[0])) && Ops(cs[1..]) <= Complete(s, cs[0]).flight
  {
    assert cs[0].op in Ops(cs);
    CompleteOk(s, cs[0]);
    CompleteOnlyAdds(s, cs[0]);
    OneLess(s.flight, Complete(s, cs[0]).flight, cs[0].op, Ops(cs[1..]));
  }

  lemma {:induction false} CompletionsLoseNone(s: State, cs: seq<Completion>)
    requires Inv(s) && Ops(cs) <= s.flight
    ensures NoneLost(Completions(s, cs)) <==> NoneLost(s) && NeverStarved(s, cs)
    decreases |cs|
  {
    if cs != [] {
      OneDone(s, cs);
      NoneLostExactly(s, cs[0]);
      CompletionsLoseNone(Complete(s, cs[0]), cs[1..]);
    }
  }

  lemma TurnStarts(s: State, room: nat)
    requires Inv(s)
    ensures Inv(s.(room := room)) && (NoneLost(s.(room := room)) <==> NoneLost(s))
    ensures forall j :: 0 <= j < MAX_SLOTS ==> (Lost(s.(room := room), j) <==> Lost(s, j))
  {
    forall i | 0 <= i < MAX_SLOTS ensures SlotOk(s.(room := room), i) && (Lost(s.(room := room), i) <==> Lost(s, i)) {
      assert SlotOk(s, i);
    }
  }

  /** Arming the listener concerns no connection. */
  lemma RearmLosesNone(s: State)
    requires Inv(s) && s.flight[Accept] == 0
    ensures Inv(Submit(s, Accept)) && (NoneLost(Submit(s, Accept)) <==> NoneLost(s))
    ensures forall j :: 0 <= j < MAX_SLOTS ==> (Lost(Submit(s, Accept), j) <==> Lost(s, j))
  {
    RearmOk(s);
    forall j | 0 <= j < MAX_SLOTS ensures Lost(Submit(s, Accept), j) <==> Lost(s, j) {}
  }

  /** Completions and, if the listener fired, arming it again. */
  lemma AfterCompletionsOk(s: State, t: Turn)
    requires Inv(s) && Possible(s, t)
    ensures var c := Completions(s.(room := t.room), t.done); var a := AfterCompletions(s, t);
            Inv(c) && Inv(a) && (NoneLost(a) <==> NoneLost(c)) && forall j :: 0 <= j < MAX_SLOTS ==> (Lost(a, j) <==> Lost(c, j))
  {
    TurnStarts(s, t.room);
    CompletionsOk(s.(room := t.room), t.done);
    if Accept in Ops(t.done) { RearmLosesNone(Completions(s.(room := t.room), t.done)); }
  }

  lemma TurnLosesNone(s: State, t: Turn)
    requires Inv(s) && Possible(s, t)
    ensures NoneLost(Next(s, t)) <==> NoneLost(s) && Fed(s, t)
  {
    TurnStarts(s, t.room);
    CompletionsLoseNone(s.(room := t.room), t.done);
    AfterCompletionsOk(s, t);
    CommitLosesNone(AfterCompletions(s, t), t.answers, 0);
  }

  // ----- Runs -----

  lemma {:induction false} RunLosesNone(s: State, ts: seq<Turn>)
    requires Inv(s) && PossibleRun(s, ts)
    ensures NoneLost(Run(s, ts)) <==> NoneLost(s) && AllFed(s, ts)
    decreases |ts|
  {
    if ts != [] {
      TurnLosesNone(s, ts[0]);
      TurnOk(s, ts[0]);
      RunLosesNone(Next(s, ts[0]), ts[1..]);
    }
  }

  /** After every run from the start, each live connection owns exactly one operation if and only if no turn
      of the run lacked a submission entry or a place in the batch. */
  lemma EveryRunKeepsAllOwned(ts: seq<Turn>)
    requires InRange(Start()) && PossibleRun(Start(), ts)
    ensures var s := Run(Start(), ts);
            && (NoneLost(s) <==> AllFed(Start(), ts))
            && (AllFed(Start(), ts) <==> forall i :: 0 <= i < MAX_SLOTS && s.slots[i].state != Free ==> Owned(s, i) == 1)
  {
    StartOk();
    EveryRunIsSafe(ts);
    assert NoneLost(Start()) by {
      forall i | 0 <= i < MAX_SLOTS ensures !Lost(Start(), i) {}
    }
    RunLosesNone(Start(), ts);
    ExactlyOne(Run(Start(), ts));
  }

  // ----- What is lost stays lost -----

  lemma {:induction false} LostThroughCompletions(s: State, cs: seq<Completion>, j: nat)
    requires Inv(s) && Ops(cs) <= s.flight && j < MAX_SLOTS && Lost(s, j)
    ensures Lost(Completions(s, cs), j)
    decreases |cs|
  {
    if cs != [] {
      OneDone(s, cs);
      LostForGood(s, cs[0], j);
      LostThroughCompletions(Complete(s, cs[0]), cs[1..], j);
    }
  }

  lemma LostThroughAnswer(s: State, response: seq<Byte>, j: nat)
    requires Inv(s) && s.pending != [] && j < MAX_SLOTS && Lost(s, j)
    ensures Lost(AnswerFirst(s, response), j)
  {
    var i, s' := s.pending[0], AnswerFirst(s, response);
    assert s.pending == [i] + s.pending[1..];
    assert multiset(s.pending)[i] > 0;
    assert s'.flight[Recv(j)] == s.flight[Recv(j)] && s'.flight[Send(j)] == s.flight[Send(j)];
  }

  lemma {:induction false} LostThroughCommit(s: State, answers: nat -> seq<Byte>, k: nat, j: nat)
    requires Inv(s) && j < MAX_SLOTS && Lost(s, j)
    ensures Lost(Commit(s, answers, k), j)
    decreases |s.pending|
  {
    if s.pending != [] {
      AnswerFirstOk(s, answers(k));
      LostThroughAnswer(s, answers(k), j);
      LostThroughCommit(AnswerFirst(s, answers(k)), answers, k + 1, j);
    }
  }

  lemma LostThroughTurn(s: State, t: Turn, j: nat)
    requires Inv(s) && Possible(s, t) && j < MAX_SLOTS && Lost(s, j)
    ensures Lost(Next(s, t), j)
  {
    TurnStarts(s, t.room);
    LostThroughCompletions(s.(room := t.room), t.done, j);
    AfterCompletionsOk(s, t);
    LostThroughCommit(AfterCompletions(s, t), t.answers, 0, j);
  }

  /** A connection that was lost is lost after any run: its slot is never used again. */
  lemma {:induction false} LostInEveryRun(s: State, ts: seq<Turn>, j: nat)
    requires Inv(s) && PossibleRun(s, ts) && j < MAX_SLOTS && Lost(s, j)
    ensures Lost(Run(s, ts), j)
    decreases |ts|
  {
    if ts != [] {
      LostThroughTurn(s, ts[0], j);
      TurnOk(s, ts[0]);
      LostInEveryRun(Next(s, ts[0]), ts[1..], j);
    }
  }

  // ----- The listener -----

  /** The turn arms the listener again if it fired. */
  predicate Rearmed(s: State, t: Turn)
    requires InRange(s)
  {
    Accept in Ops(t.done) ==> Completions(s.(room := t.room), t.done).room > 0
  }

  predicate AlwaysRearmed(s: State, ts: seq<Turn>)
    requires InRange(s)
    decreases |ts|
  {
    ts == [] || (Rearmed(s, ts[0]) && AlwaysRearmed(Next(s, ts[0]), ts[1..]))
  }

  lemma {:induction false} CommitKeepsListener(s: State, answers: nat -> seq<Byte>, k: nat)
    requires InRange(s)
    ensures Commit(s, answers, k).flight[Accept] == s.flight[Accept]
    decreases |s.pending|
  {
    if s.pending != [] { CommitKeepsListener(AnswerFirst(s, answers(k)), answers, k + 1); }
  }

  lemma TurnKeepsListener(s: State, t: Turn)
    requires Inv(s) && Possible(s, t)
    ensures Next(s, t).flight[Accept] == 1 <==> s.flight[Accept] == 1 && Rearmed(s, t)
  {
    TurnStarts(s, t.room);
    CompletionsOk(s.(room := t.room), t.done);
    CommitKeepsListener(AfterCompletions(s, t), t.answers, 0);
  }

  /** The server still accepts connections after a run if and only if every time the listener fired there was a
      submission entry to arm it again; the code does not try a second time. */
  lemma {:induction false} RunKeepsListener(s: State, ts: seq<Turn>)
    requires Inv(s) && PossibleRun(s, ts)
    ensures Run(s, ts).flight[Accept] == 1 <==> s.flight[Accept] == 1 && AlwaysRearmed(s, ts)
    decreases |ts|
  {
    if ts != [] {
      TurnKeepsListener(s, ts[0]);
      TurnOk(s, ts[0]);
      RunKeepsListener(Next(s, ts[0]), ts[1..]);
    }
  }
}
