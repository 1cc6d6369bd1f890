/** Every request the server engine receives in a turn has its answer ready to be sent at the end of the turn. */
module SlotAnswers {
  import opened Basics
  import opened Bytes
  import opened SlotEngine
  import opened SlotRuns

  /** The slots of the writes that come in, in order. */
  function Writes(cs: seq<Completion>): seq<nat> { if cs == [] then [] else WriteOf(cs[0]) + Writes(cs[1..]) }

  function WriteOf(c: Completion): seq<nat> { if c.op.Recv? && c.res > 0 && c.req.write then [c.op.slot] else [] }

  /** Slot x is about to send the response to the same connection from its first byte. */
  predicate SendsTo(x: Slot, fd: int, response: seq<Byte>) {
    x.fd == fd && x.state == Writing && x.buf == response && x.offset == 0 && x.total == |response|
  }

  // ----- The batch -----

  function InBatch(p: seq<nat>): seq<nat> { if |p| <= MAX_PENDING then p else p[..MAX_PENDING] }

  lemma InBatchTwice(a: seq<nat>, b: seq<nat>)
    ensures InBatch(InBatch(a) + b) == InBatch(a + b)
  {
  }

  lemma CompleteQueues(s: State, c: Completion)
    requires Inv(s) && c.op in s.flight
    ensures Complete(s, c).pending == InBatch(s.pending + WriteOf(c))
  {
    assert s.pending + [] == s.pending;
    assert c.op.Accept? || c.op.slot < MAX_SLOTS;
    if c.op.Recv? && c.res > 0 && c.req.write && |s.pending| == MAX_PENDING {
      assert (s.pending + [c.op.slot])[..MAX_PENDING] == s.pending;
    }
  }

  /** The writes of a turn wait in the order in which they came in, as many as the batch holds. */
  lemma {:induction false} WritesWaitInOrder(s: State, cs: seq<Completion>)
    requires Inv(s) && Ops(cs) <= s.flight
    ensures Completions(s, cs).pending == InBatch(s.pending + Writes(cs))
    decreases |cs|
  {
    if cs == [] {
      assert s.pending + [] == s.pending;
    } else {
      OneDone(s, cs);
      CompleteQueues(s, cs[0]);
      WritesWaitInOrder(Complete(s, cs[0]), cs[1..]);
      InBatchTwice(s.pending + WriteOf(cs[0]), Writes(cs[1..]));
      Regroup(s.pending, WriteOf(cs[0]), Writes(cs[1..]));
    }
  }

  // ----- One slot through the completions of a turn -----

  lemma Elsewhere(s: State, c: Completion, i: nat)
    requires Inv(s) && c.op in s.flight && i < MAX_SLOTS && s.slots[i].state != Free && !OpOf(c.op, i)
    ensures Complete(s, c).slots[i] == s.slots[i]
  {
    if c.op.Accept? {
      if c.res >= 0 && s.free != [] {
        assert SlotOk(s, i);
        CompleteTouchesOne(s, c, s.free[|s.free| - 1]);
      }
    } else {
      assert c.op.slot < MAX_SLOTS;
      CompleteTouchesOne(s, c, c.op.slot);
    }
  }

  predicate NoneOf(cs: seq<Completion>, i: nat) { Ops(cs)[Recv(i)] == 0 && Ops(cs)[Send(i)] == 0 }

  lemma {:induction false} Untouched(s: State, cs: seq<Completion>, i: nat)
    requires Inv(s) && Ops(cs) <= s.flight && i < MAX_SLOTS && s.slots[i].state != Free && NoneOf(cs, i)
    ensures Completions(s, cs).slots[i] == s.slots[i]
    decreases |cs|
  {
    if cs != [] {
      OneDone(s, cs);
      assert cs[0].op in Ops(cs);
      Elsewhere(s, cs[0], i);
      Untouched(Complete(s, cs[0]), cs[1..], i);
    }
  }

  lemma {:induction false} OpAt(cs: seq<Completion>, n: nat)
    requires n < |cs|
    ensures Ops(cs)[cs[n].op] > 0
    decreases n
  {
    if n > 0 { OpAt(cs[1..], n - 1); }
  }

  /** At most one completion is about a slot, and it is about a live one. */
  lemma OnlyOne(s: State, cs: seq<Completion>, n: nat, i: nat)
    requires Inv(s) && Ops(cs) <= s.flight && n < |cs| && cs[n].op == Recv(i)
    ensures i < MAX_SLOTS && s.slots[i].state == Reading
    ensures n == 0 ==> NoneOf(cs[1..], i)
    ensures n > 0 ==> !OpOf(cs[0].op, i)
  {
    OpAt(cs, n);
    assert Recv(i) in s.flight;
    assert SlotOk(s, i);
    assert Ops(cs) == multiset{cs[0].op} + Ops(cs[1..]);
    if n > 0 { OpAt(cs[1..], n - 1); }
  }

  lemma Received(s: State, c: Completion, i: nat)
    requires Inv(s) && c.op == Recv(i) && c.op in s.flight && i < MAX_SLOTS && c.res > 0
    ensures var y := Complete(s, c).slots[i];
            y.fd == s.slots[i].fd && y.state != Free && (!c.req.write ==> SendsTo(y, s.slots[i].fd, c.req.answer))
  {
    assert SlotOk(s, i);
  }

  /** The connection of a request stays, and has its answer if there is one at once. */
  predicate Served(y: Slot, fd: int, req: Request) { y.fd == fd && (!req.write ==> SendsTo(y, fd, req.answer)) }

  lemma HandledFirst(s: State, cs: seq<Completion>, i: nat)
    requires Inv(s) && Ops(cs) <= s.flight && cs != [] && cs[0].op == Recv(i) && cs[0].res > 0
    ensures i < MAX_SLOTS && Served(Completions(s, cs).slots[i], s.slots[i].fd, cs[0].req)
  {
    OnlyOne(s, cs, 0, i);
    OneDone(s, cs);
    Received(s, cs[0], i);
    Untouched(Complete(s, cs[0]), cs[1..], i);
  }

  /** What becomes of a slot on which a request comes in stays so to the end of the completions. */
  lemma {:induction false} Handled(s: State, cs: seq<Completion>, n: nat, i: nat)
    requires Inv(s) && Ops(cs) <= s.flight && n < |cs| && cs[n].op == Recv(i) && cs[n].res > 0
    ensures i < MAX_SLOTS && Served(Completions(s, cs).slots[i], s.slots[i].fd, cs[n].req)
    decreases n
  {
    if n == 0 { HandledFirst(s, cs, i); } else {
      OnlyOne(s, cs, n, i);
      OneDone(s, cs);
      Elsewhere(s, cs[0], i);
      Handled(Complete(s, cs[0]), cs[1..], n - 1, i);
    }
  }

  lemma {:induction false} WriteCameIn(cs: seq<Completion>, j: nat) returns (n: nat)
    requires j < |Writes(cs)|
    ensures n < |cs| && cs[n].op == Recv(Writes(cs)[j]) && cs[n].res > 0
    decreases |cs|
  {
    if cs[0].op.Recv? && cs[0].res > 0 && cs[0].req.write {
      if j == 0 { n := 0; } else { n := WriteCameIn(cs[1..], j - 1); n := n + 1; }
    } else {
      n := WriteCameIn(cs[1..], j);
      n := n + 1;
    }
  }

  // ----- The commit -----

  lemma AnswerFirstHere(s: State, response: seq<Byte>)
    requires InRange(s) && s.pending != []
    ensures var s' := AnswerFirst(s, response);
            && SendsTo(s'.slots[s.pending[0]], s.slots[s.pending[0]].fd, response)
            && s'.pending == s.pending[1..]
            && forall i :: 0 <= i < MAX_SLOTS && i != s.pending[0] ==> s'.slots[i] == s.slots[i]
  {
  }

  /** The j-th waiting write has the answer k + j. */
  predicate AnsweredFrom(s: State, s': State, answers: nat -> seq<Byte>, k: nat)
    requires InRange(s) && InRange(s')
  {
    forall j: nat :: j < |s.pending| ==> SendsTo(s'.slots[s.pending[j]], s.slots[s.pending[j]].fd, answers(k + j))
  }

  predicate OthersKept(s: State, s': State)
    requires InRange(s) && InRange(s')
  {
    forall i :: 0 <= i < MAX_SLOTS && i !in s.pending ==> s'.slots[i] == s.slots[i]
  }

  lemma OneMoreAnswered(s: State, s1: State, s': State, answers: nat -> seq<Byte>, k: nat)
    requires InRange(s) && InRange(s1) && InRange(s') && s.pending != [] && NoDup(s.pending)
    requires s1.pending == s.pending[1..] && SendsTo(s1.slots[s.pending[0]], s.slots[s.pending[0]].fd, answers(k))
    requires forall i :: 0 <= i < MAX_SLOTS && i != s.pending[0] ==> s1.slots[i] == s.slots[i]
    requires AnsweredFrom(s1, s', answers, k + 1) && OthersKept(s1, s')
    ensures AnsweredFrom(s, s', answers, k) && OthersKept(s, s')
  {
    assert s.pending[0] !in s1.pending;
    forall j: nat | j < |s.pending| ensures SendsTo(s'.slots[s.pending[j]], s.slots[s.pending[j]].fd, answers(k + j)) {
      if j > 0 { assert s.pending[j] == s1.pending[j - 1] && k + 1 + (j - 1) == k + j; }
    }
    assert s.pending == [s.pending[0]] + s1.pending;
  }

  /** A commit answers the waiting writes in order and leaves the other slots alone. */
  lemma {:induction false} CommitAnswersInOrder(s: State, answers: nat -> seq<Byte>, k: nat)
    requires Inv(s)
    ensures AnsweredFrom(s, Commit(s, answers, k), answers, k) && OthersKept(s, Commit(s, answers, k))
    decreases |s.pending|
  {
    if s.pending != [] {
      var s1 := AnswerFirst(s, answers(k));
      AnswerFirstOk(s, answers(k));
      AnswerFirstHere(s, answers(k));
      CommitAnswersInOrder(s1, answers, k + 1);
      OneMoreAnswered(s, s1, Commit(s1, answers, k + 1), answers, k);
    }
  }

  // ----- A turn -----

  lemma TurnBegins(s: State, t: Turn)
    requires Inv(s) && Possible(s, t) && s.pending == []
    ensures var c := Completions(s.(room := t.room), t.done); var a := AfterCompletions(s, t);
            && Inv(s.(room := t.room)) && Inv(a) && a.slots == c.slots && a.pending == c.pending == InBatch(Writes(t.done))
  {
    TurnStarts(s, t.room);
    AfterCompletionsOk(s, t);
    WritesWaitInOrder(s.(room := t.room), t.done);
    assert [] + Writes(t.done) == Writes(t.done);
  }

  /** A request that is answered at once. */
  predicate AtOnce(c: Completion) { c.op.Recv? && c.res > 0 && !c.req.write }

  lemma AnsweredAtOnce(s: State, t: Turn, n: nat)
    requires Inv(s) && Possible(s, t) && s.pending == [] && n < |t.done| && AtOnce(t.done[n])
    ensures var i := t.done[n].op.slot; i < MAX_SLOTS && SendsTo(Next(s, t).slots[i], s.slots[i].fd, t.done[n].req.answer)
  {
    TurnBegins(s, t);
    var i, a := t.done[n].op.slot, AfterCompletions(s, t);
    Handled(s.(room := t.room), t.done, n, i);
    assert SlotOk(a, i);
    CommitAnswersInOrder(a, t.answers, 0);
  }

  /** A write that finds room in the batch. */
  lemma AnsweredByCommit(s: State, t: Turn, j: nat)
    requires Inv(s) && Possible(s, t) && s.pending == [] && j < |Writes(t.done)| && j < MAX_PENDING
    ensures var i := Writes(t.done)[j]; i < MAX_SLOTS && SendsTo(Next(s, t).slots[i], s.slots[i].fd, t.answers(j))
  {
    TurnBegins(s, t);
    var n := WriteCameIn(t.done, j);
    var i, a := Writes(t.done)[j], AfterCompletions(s, t);
    Handled(s.(room := t.room), t.done, n, i);
    CommitAnswersInOrder(a, t.answers, 0);
    assert a.pending[j] == i && 0 + j == j;
  }

  // ----- Every run -----

  lemma {:induction false} RunEmptiesBatch(s: State, ts: seq<Turn>)
    requires Inv(s) && PossibleRun(s, ts) && s.pending == []
    ensures Inv(Run(s, ts)) && Run(s, ts).pending == []
    decreases |ts|
  {
    if ts != [] {
      TurnOk(s, ts[0]);
      RunEmptiesBatch(Next(s, ts[0]), ts[1..]);
    }
  }

  /** In every turn of every run each request that comes in has, at the end of the turn, its answer in its
      slot, to be sent from the first byte to the connection it came from: its own answer at once, or, for
      the j-th write of the turn that finds room in the batch, the j-th answer of the commit. */
  lemma EveryRequestIsAnswered(ts: seq<Turn>, t: Turn)
    requires InRange(Start()) && PossibleRun(Start(), ts) && Possible(Run(Start(), ts), t)
    ensures forall n: nat :: n < |t.done| && AtOnce(t.done[n]) ==>
              var i := t.done[n].op.slot;
              i < MAX_SLOTS && SendsTo(Next(Run(Start(), ts), t).slots[i], Run(Start(), ts).slots[i].fd, t.done[n].req.answer)
    ensures forall j: nat :: j < |Writes(t.done)| && j < MAX_PENDING ==>
              var i := Writes(t.done)[j];
              i < MAX_SLOTS && SendsTo(Next(Run(Start(), ts), t).slots[i], Run(Start(), ts).slots[i].fd, t.answers(j))
  {
    StartOk();
    RunEmptiesBatch(Start(), ts);
    var s := Run(Start(), ts);
    forall n: nat | n < |t.done| && AtOnce(t.done[n])
      ensures var i := t.done[n].op.slot; i < MAX_SLOTS && SendsTo(Next(s, t).slots[i], s.slots[i].fd, t.done[n].req.answer)
    {
      AnsweredAtOnce(s, t, n);
    }
    forall j: nat | j < |Writes(t.done)| && j < MAX_PENDING
      ensures var i := Writes(t.done)[j]; i < MAX_SLOTS && SendsTo(Next(s, t).slots[i], s.slots[i].fd, t.answers(j))
    {
      AnsweredByCommit(s, t, j);
    }
  }
}
