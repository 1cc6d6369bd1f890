/** The server engine as a state machine over its completions, and what every run of it keeps. */
module SlotEngine {
  import opened Bytes

  const MAX_SLOTS: nat := 2048
  const BATCH_SIZE: nat := 64
  const MAX_PENDING: nat := BATCH_SIZE * 2
  const RING_ENTRIES: nat := 1024

  datatype SlotState = Free | Reading | Writing | Queued

  /** The write buffer keeps the last response that was put into it. */
  datatype Slot = Slot(fd: int, state: SlotState, keepAlive: bool, readLen: nat, offset: nat, total: nat, buf: seq<Byte>)

  /** An operation handed to the ring. */
  datatype Op = Accept | Recv(slot: nat) | Send(slot: nat)

  /** The tag of an operation in its user data, and back. */
  function Encode(op: Op): nat {
    match op
    case Accept => 0
    case Recv(i) => i * 4 + 1
    case Send(i) => i * 4 + 2
  }

  function Decode(u: nat): Op { if u == 0 then Accept else if u % 4 == 1 then Recv(u / 4) else Send(u / 4) }

  lemma DecodeUndoesEncode(op: Op)
    ensures Decode(Encode(op)) == op
  {
  }

  /** What a request asks for: an answer at once, or a write that waits for the next
      group commit; and whether the connection ends after the answer. */
  datatype Request = Request(write: bool, answer: seq<Byte>, close: bool)

  /** Slots, the stack of free ones, the writes waiting for the commit, the operations in flight, and
      the submission entries left. */
  datatype State = State(slots: seq<Slot>, free: seq<nat>, pending: seq<nat>, flight: multiset<Op>, room: nat)

  const NO_SLOT: Slot := Slot(-1, Free, false, 0, 0, 0, [])

  // ----- The steps -----

  /** Hand an operation to the ring; when no entry is left, it is lost. */
  function Submit(s: State, op: Op): State {
    if s.room > 0 then s.(flight := s.flight + multiset{op}, room := s.room - 1) else s
  }

  function Put(s: State, i: nat, x: Slot): State
    requires i < |s.slots|
  {
    s.(slots := s.slots[i := x])
  }

  function Release(s: State, i: nat): State
    requires i < |s.slots|
  {
    Put(s, i, s.slots[i].(fd := -1, state := Free)).(free := s.free + [i])
  }

  function Accepted(x: Slot, fd: int): Slot {
    x.(fd := fd, state := Reading, keepAlive := true, readLen := 0, offset := 0, total := 0)
  }

  function Answering(x: Slot, response: seq<Byte>): Slot { x.(state := Writing, offset := 0, total := |response|, buf := response) }

  function OnAccept(s: State, res: int): (r: State)
    requires InRange(s)
    ensures InRange(r)
  {
    if res < 0 || s.free == [] then s else
    var i := s.free[|s.free| - 1];
    Submit(Put(s, i, Accepted(s.slots[i], res)).(free := s.free[..|s.free| - 1]), Recv(i))
  }

  function Answer(s: State, i: nat, response: seq<Byte>): State
    requires i < |s.slots|
  {
    Submit(Put(s, i, Answering(s.slots[i], response)), Send(i))
  }

  function OnRecv(s: State, i: nat, res: int, req: Request): (r: State)
    requires i < |s.slots|
    ensures InRange(s) ==> InRange(r)
  {
    if res <= 0 then Release(s, i) else
    var s' := Put(s, i, s.slots[i].(readLen := res, keepAlive := s.slots[i].keepAlive && !req.close));
    if !req.write then Answer(s', i, req.answer)
    else if |s.pending| < MAX_PENDING then
      Put(s', i, s'.slots[i].(state := Queued)).(pending := s.pending + [i])
    else s'
  }

  function OnSend(s: State, i: nat, res: int): (r: State)
    requires i < |s.slots|
    ensures InRange(s) ==> InRange(r)
  {
    if res <= 0 then Release(s, i) else
    var s' := Put(s, i, s.slots[i].(offset := s.slots[i].offset + res));
    if s'.slots[i].offset < s'.slots[i].total then Submit(s', Send(i))
    else if s'.slots[i].keepAlive then
      Submit(Put(s', i, s'.slots[i].(state := Reading, readLen := 0, offset := 0, total := 0)), Recv(i))
    else Release(s', i)
  }

  /** A completion: of which operation, with what result, and for a receive the request it brought. */
  datatype Completion = Completion(op: Op, res: int, req: Request)

  function Complete(s: State, c: Completion): (r: State)
    requires InRange(s)
    ensures InRange(r)
  {
    var s' := s.(flight := s.flight - multiset{c.op});
    match c.op
    case Accept => OnAccept(s', c.res)
    case Recv(i) => if i < MAX_SLOTS then OnRecv(s', i, c.res, c.req) else s'
    case Send(i) => if i < MAX_SLOTS then OnSend(s', i, c.res) else s'
  }

  predicate InRange(s: State) {
    && |s.slots| == MAX_SLOTS
    && (forall k :: 0 <= k < |s.free| ==> s.free[k] < MAX_SLOTS)
    && (forall k :: 0 <= k < |s.pending| ==> s.pending[k] < MAX_SLOTS)
  }

  /** The first waiting write gets its answer. */
  function AnswerFirst(s: State, response: seq<Byte>): (r: State)
    requires InRange(s) && s.pending != []
    ensures InRange(r)
  {
    Answer(s, s.pending[0], response).(pending := s.pending[1..])
  }

  /** All of them, in order; the k-th answer is answers(k). */
  function Commit(s: State, answers: nat -> seq<Byte>, k: nat): (r: State)
    requires InRange(s)
    ensures InRange(r)
    decreases |s.pending|
  {
    if s.pending == [] then s else Commit(AnswerFirst(s, answers(k)), answers, k + 1)
  }

  function Start(): State {
    State(seq(MAX_SLOTS, _ => NO_SLOT), seq(MAX_SLOTS, i => MAX_SLOTS - 1 - i), [], multiset{Accept}, RING_ENTRIES)
  }

  // ----- The invariant -----

  predicate NoDup(s: seq<nat>) { forall j, k :: 0 <= j < k < |s| ==> s[j] != s[k] }

  /** How many operations and waiting writes a slot owns. */
  function Owned(s: State, i: nat): nat { s.flight[Recv(i)] + s.flight[Send(i)] + multiset(s.pending)[i] }

  predicate SlotOk(s: State, i: nat)
    requires i < |s.slots|
  {
    var x := s.slots[i];
    && Owned(s, i) <= 1
    && (x.state == Free <==> i in s.free) && (x.state == Free <==> x.fd < 0)
    && (x.state == Free ==> Owned(s, i) == 0)
    && (Recv(i) in s.flight ==> x.state == Reading)
    && (Send(i) in s.flight ==> x.state == Writing)
    && (i in s.pending <==> x.state == Queued)
  }

  predicate FlightOk(s: State) {
    s.flight[Accept] <= 1 && forall op :: op in s.flight ==> op.Accept? || op.slot < MAX_SLOTS
  }

  predicate Inv(s: State) {
    && InRange(s) && NoDup(s.free) && NoDup(s.pending) && |s.pending| <= MAX_PENDING && FlightOk(s)
    && forall i :: 0 <= i < MAX_SLOTS ==> SlotOk(s, i)
  }

  // ----- Every step keeps it -----

  lemma StartOk()
    ensures Inv(Start())
  {
    var s := Start();
    forall i | 0 <= i < MAX_SLOTS ensures SlotOk(s, i) { assert s.free[MAX_SLOTS - 1 - i] == i; }
  }

  /** A step on one slot: everything else stays as it was. */
  ghost predicate OnlySlot(s: State, s': State, i: nat) {
    && |s'.slots| == |s.slots|
    && (forall j :: 0 <= j < |s.slots| && j != i ==> s'.slots[j] == s.slots[j])
    && (forall j :: j != i ==> (j in s'.free <==> j in s.free) && multiset(s'.pending)[j] == multiset(s.pending)[j])
    && (forall op :: op == Accept || op.slot != i ==> s'.flight[op] == s.flight[op])
  }

  lemma OneSlotStep(s: State, s': State, i: nat)
    requires Inv(s) && InRange(s') && OnlySlot(s, s', i) && i < MAX_SLOTS && SlotOk(s', i)
    requires NoDup(s'.free) && NoDup(s'.pending) && |s'.pending| <= MAX_PENDING
    ensures Inv(s')
  {
    forall j | 0 <= j < MAX_SLOTS ensures SlotOk(s', j) {
      if j != i {
        assert SlotOk(s, j);
        assert s'.flight[Recv(j)] == s.flight[Recv(j)] && s'.flight[Send(j)] == s.flight[Send(j)];
        assert j in s'.pending <==> j in multiset(s'.pending);
        assert j in s.pending <==> j in multiset(s.pending);
      }
    }
    assert s'.flight[Accept] == s.flight[Accept];
  }

  /** A connection that owns nothing at the moment: its operation has just completed. */
  predicate Idle(s: State, i: nat) {
    && i < |s.slots| && Owned(s, i) == 0 && s.slots[i].fd >= 0
    && (s.slots[i].state == Reading || s.slots[i].state == Writing)
  }

  predicate OpOf(op: Op, i: nat) { op == Recv(i) || op == Send(i) }

  lemma Taken(s: State, op: Op, i: nat)
    requires Inv(s) && op in s.flight && OpOf(op, i)
    ensures i < MAX_SLOTS && SlotOk(s, i)
    ensures var s' := s.(flight := s.flight - multiset{op}); Inv(s') && Idle(s', i)
  {
    assert op.slot < MAX_SLOTS;
    assert SlotOk(s, i);
    var s' := s.(flight := s.flight - multiset{op});
    OneSlotStep(s, s', i);
  }

  lemma PutLive(s: State, i: nat, x: Slot)
    requires Inv(s) && Idle(s, i) && x.fd >= 0 && (x.state == Reading || x.state == Writing)
    ensures Inv(Put(s, i, x)) && Idle(Put(s, i, x), i)
  {
    assert SlotOk(s, i);
    OneSlotStep(s, Put(s, i, x), i);
  }

  lemma SubmitOk(s: State, i: nat, op: Op)
    requires Inv(s) && Idle(s, i) && OpOf(op, i) && s.slots[i].state == (if op.Recv? then Reading else Writing)
    ensures Inv(Submit(s, op))
  {
    if s.room > 0 {
      assert SlotOk(s, i);
      OneSlotStep(s, Submit(s, op), i);
    }
  }

  lemma ReleaseOk(s: State, i: nat)
    requires Inv(s) && Idle(s, i)
    ensures Inv(Release(s, i))
  {
    assert SlotOk(s, i);
    assert i !in s.free;
    OneSlotStep(s, Release(s, i), i);
  }

  lemma AnswerOk(s: State, i: nat, response: seq<Byte>)
    requires Inv(s) && Idle(s, i)
    ensures Inv(Answer(s, i, response))
  {
    var x := Answering(s.slots[i], response);
    PutLive(s, i, x);
    SubmitOk(Put(s, i, x), i, Send(i));
  }

  lemma QueueOk(s: State, i: nat)
    requires Inv(s) && Idle(s, i) && |s.pending| < MAX_PENDING
    ensures Inv(Put(s, i, s.slots[i].(state := Queued)).(pending := s.pending + [i]))
  {
    assert SlotOk(s, i);
    assert i !in s.pending;
    OneSlotStep(s, Put(s, i, s.slots[i].(state := Queued)).(pending := s.pending + [i]), i);
  }

  lemma RecvOk(s: State, i: nat, res: int, req: Request)
    requires Inv(s) && Idle(s, i)
    ensures Inv(OnRecv(s, i, res, req))
  {
    if res <= 0 { ReleaseOk(s, i); } else {
      var x := s.slots[i].(readLen := res, keepAlive := s.slots[i].keepAlive && !req.close);
      PutLive(s, i, x);
      if !req.write { AnswerOk(Put(s, i, x), i, req.answer); }
      else if |s.pending| < MAX_PENDING { QueueOk(Put(s, i, x), i); }
    }
  }

  lemma SendOk(s: State, i: nat, res: int)
    requires Inv(s) && Idle(s, i) && s.slots[i].state == Writing
    ensures Inv(OnSend(s, i, res))
  {
    if res <= 0 { ReleaseOk(s, i); } else {
      var x := s.slots[i].(offset := s.slots[i].offset + res);
      PutLive(s, i, x);
      var s' := Put(s, i, x);
      if x.offset < x.total { SubmitOk(s', i, Send(i)); }
      else if x.keepAlive {
        var y := x.(state := Reading, readLen := 0, offset := 0, total := 0);
        PutLive(s', i, y);
        SubmitOk(Put(s', i, y), i, Recv(i));
      } else { ReleaseOk(s', i); }
    }
  }

  lemma AcceptOk(s: State, res: int)
    requires Inv(s)
    ensures Inv(OnAccept(s, res))
  {
    if res >= 0 && s.free != [] {
      var n := |s.free| - 1;
      var i := s.free[n];
      var s' := Put(s, i, Accepted(s.slots[i], res)).(free := s.free[..n]);
      assert s.free == s.free[..n] + [i];
      assert SlotOk(s, i);
      OneSlotStep(s, s', i);
      SubmitOk(s', i, Recv(i));
    }
  }

  /** Handling a completion of an operation in flight keeps the invariant. */
  lemma CompleteOk(s: State, c: Completion)
    requires Inv(s) && c.op in s.flight
    ensures Inv(Complete(s, c))
  {
    var s' := s.(flight := s.flight - multiset{c.op});
    match c.op
    case Accept =>
      forall i | 0 <= i < MAX_SLOTS ensures SlotOk(s', i) { assert SlotOk(s, i); }
      AcceptOk(s', c.res);
    case Recv(i) =>
      Taken(s, c.op, i);
      RecvOk(s', i, c.res, c.req);
    case Send(i) =>
      Taken(s, c.op, i);
      SendOk(s', i, c.res);
  }

  /** Accepting again keeps it, when no accept is in flight. */
  lemma RearmOk(s: State)
    requires Inv(s) && s.flight[Accept] == 0
    ensures Inv(Submit(s, Accept))
  {
    forall i | 0 <= i < MAX_SLOTS ensures SlotOk(Submit(s, Accept), i) { assert SlotOk(s, i); }
  }

  lemma AnswerFirstOk(s: State, response: seq<Byte>)
    requires Inv(s) && s.pending != []
    ensures Inv(AnswerFirst(s, response))
  {
    var i, rest := s.pending[0], s.pending[1..];
    assert SlotOk(s, i);
    assert s.pending == [i] + rest;
    var s' := Put(s, i, Answering(s.slots[i], response)).(pending := rest);
    OneSlotStep(s, s', i);
    SubmitOk(s', i, Send(i));
    assert Submit(s', Send(i)) == AnswerFirst(s, response);
  }

  /** After a group commit no write waits and no slot is queued. */
  lemma {:induction false} CommitOk(s: State, answers: nat -> seq<Byte>, k: nat)
    requires Inv(s)
    ensures var s' := Commit(s, answers, k);
      Inv(s') && s'.pending == [] && forall i :: 0 <= i < MAX_SLOTS ==> s'.slots[i].state != Queued
    decreases |s.pending|
  {
    if s.pending == [] {
      forall i | 0 <= i < MAX_SLOTS ensures s.slots[i].state != Queued { assert SlotOk(s, i); }
    } else {
      AnswerFirstOk(s, answers(k));
      CommitOk(AnswerFirst(s, answers(k)), answers, k + 1);
    }
  }

  // ----- Whole runs -----

  function Completions(s: State, cs: seq<Completion>): (r: State)
    requires InRange(s)
    ensures InRange(r)
    decreases |cs|
  {
    if cs == [] then s else Completions(Complete(s, cs[0]), cs[1..])
  }

  function Ops(cs: seq<Completion>): multiset<Op> {
    if cs == [] then multiset{} else multiset{cs[0].op} + Ops(cs[1..])
  }

  /** One turn of the event loop: the ring takes submissions, which leaves some number of entries free,
      and hands over completions; the
      listener is armed again if it was among them; the waiting writes are committed. */
  datatype Turn = Turn(done: seq<Completion>, answers: nat -> seq<Byte>, room: nat)

  function AfterCompletions(s: State, t: Turn): (r: State)
    requires InRange(s)
    ensures InRange(r)
  {
    var s' := Completions(s.(room := t.room), t.done);
    if Accept in Ops(t.done) then Submit(s', Accept) else s'
  }

  function Next(s: State, t: Turn): (r: State)
    requires InRange(s)
    ensures InRange(r)
  {
    Commit(AfterCompletions(s, t), t.answers, 0)
  }

  /** The ring completes only what is in flight. */
  predicate Possible(s: State, t: Turn) { Ops(t.done) <= s.flight }

  /** A handler takes nothing out of flight and never puts in an accept. */
  predicate OnlyAdds(s: State, s': State) { s.flight <= s'.flight && s'.flight[Accept] == s.flight[Accept] }

  lemma CompleteOnlyAdds(s: State, c: Completion)
    requires InRange(s)
    ensures OnlyAdds(s.(flight := s.flight - multiset{c.op}), Complete(s, c))
  {
    var s' := s.(flight := s.flight - multiset{c.op});
    match c.op
    case Accept =>
    case Recv(i) => if i < MAX_SLOTS { assert OnlyAdds(s', OnRecv(s', i, c.res, c.req)); }
    case Send(i) => if i < MAX_SLOTS { assert OnlyAdds(s', OnSend(s', i, c.res)); }
  }

  lemma {:induction false} CompletionsOk(s: State, cs: seq<Completion>)
    requires Inv(s) && Ops(cs) <= s.flight
    ensures Inv(Completions(s, cs))
    ensures Completions(s, cs).flight[Accept] + Ops(cs)[Accept] == s.flight[Accept]
    decreases |cs|
  {
    if cs != [] {
      var c, s' := cs[0], Complete(s, cs[0]);
      assert c.op in Ops(cs);
      CompleteOk(s, c);
      CompleteOnlyAdds(s, c);
      OneLess(s.flight, s'.flight, c.op, Ops(cs[1..]));
      CompletionsOk(s', cs[1..]);
    }
  }

  lemma OneLess(before: multiset<Op>, after: multiset<Op>, op: Op, rest: multiset<Op>)
    requires multiset{op} + rest <= before && before - multiset{op} <= after
    ensures rest <= after
  {
  }

  lemma TurnOk(s: State, t: Turn)
    requires Inv(s) && Possible(s, t)
    ensures Inv(Next(s, t)) && Next(s, t).pending == []
    ensures forall i :: 0 <= i < MAX_SLOTS ==> Next(s, t).slots[i].state != Queued
  {
    var s0 := s.(room := t.room);
    forall i | 0 <= i < MAX_SLOTS ensures SlotOk(s0, i) { assert SlotOk(s, i); }
    CompletionsOk(s0, t.done);
    if Accept in Ops(t.done) { RearmOk(Completions(s0, t.done)); }
    CommitOk(AfterCompletions(s, t), t.answers, 0);
  }

  function Run(s: State, ts: seq<Turn>): (r: State)
    requires InRange(s)
    ensures InRange(r)
    decreases |ts|
  {
    if ts == [] then s else Run(Next(s, ts[0]), ts[1..])
  }

  predicate PossibleRun(s: State, ts: seq<Turn>)
    requires InRange(s)
    decreases |ts|
  {
    ts == [] || (Possible(s, ts[0]) && PossibleRun(Next(s, ts[0]), ts[1..]))
  }

  lemma {:induction false} RunOk(s: State, ts: seq<Turn>)
    requires Inv(s) && PossibleRun(s, ts) && forall i :: 0 <= i < MAX_SLOTS ==> s.slots[i].state != Queued
    ensures Inv(Run(s, ts)) && forall i :: 0 <= i < MAX_SLOTS ==> Run(s, ts).slots[i].state != Queued
    decreases |ts|
  {
    if ts != [] {
      TurnOk(s, ts[0]);
      RunOk(Next(s, ts[0]), ts[1..]);
    }
  }

  /** In every state the engine can reach, the free stack holds each free slot once and nothing else,
      every connection owns at most one operation or waiting write, and between turns none waits. */
  lemma EveryRunIsSafe(ts: seq<Turn>)
    requires InRange(Start()) && PossibleRun(Start(), ts)
    ensures Inv(Run(Start(), ts))
    ensures forall i :: 0 <= i < MAX_SLOTS ==> Run(Start(), ts).slots[i].state != Queued
  {
    StartOk();
    RunOk(Start(), ts);
  }

  // ----- Exactly one operation, and when it is lost -----

  /** A connection that nothing will ever complete. */
  predicate Lost(s: State, i: nat)
    requires i < |s.slots|
  {
    s.slots[i].state != Free && Owned(s, i) == 0
  }

  predicate NoneLost(s: State) { forall i :: 0 <= i < |s.slots| ==> !Lost(s, i) }

  /** The slot a completion is about, if it is about one. */
  function SlotOf(s: State, c: Completion): nat
    requires c.op.Accept? ==> s.free != []
  {
    if c.op.Accept? then s.free[|s.free| - 1] else c.op.slot
  }

  /** The handler needs a submission entry and there is none, or a place in the batch and it is full. */
  predicate Starved(s: State, c: Completion)
    requires InRange(s)
  {
    match c.op
    case Accept => c.res >= 0 && s.free != [] && s.room == 0
    case Recv(i) => c.res > 0 && (if c.req.write then |s.pending| >= MAX_PENDING else s.room == 0)
    case Send(i) =>
      i < MAX_SLOTS && c.res > 0 && s.room == 0
      && (s.slots[i].offset + c.res < s.slots[i].total || s.slots[i].keepAlive)
  }

  lemma RecvTouchesOne(s: State, i: nat, res: int, req: Request)
    requires i < |s.slots|
    ensures OnlySlot(s, OnRecv(s, i, res, req), i)
  {
  }

  lemma AcceptTouchesOne(s: State, res: int)
    requires InRange(s) && s.free != []
    ensures OnlySlot(s, OnAccept(s, res), s.free[|s.free| - 1])
  {
    assert s.free == s.free[..|s.free| - 1] + [s.free[|s.free| - 1]];
  }

  lemma CompleteTouchesOne(s: State, c: Completion, i: nat)
    requires InRange(s) && i < MAX_SLOTS
    requires if c.op.Accept? then s.free != [] && i == s.free[|s.free| - 1] else i == c.op.slot
    ensures OnlySlot(s.(flight := s.flight - multiset{c.op}), Complete(s, c), i)
  {
    var s' := s.(flight := s.flight - multiset{c.op});
    match c.op
    case Accept => AcceptTouchesOne(s', c.res);
    case Recv(_) => RecvTouchesOne(s', i, c.res, c.req);
    case Send(_) =>
  }

  lemma LostHere(s: State, c: Completion, i: nat)
    requires Inv(s) && c.op in s.flight && OpOf(c.op, i)
    ensures i < MAX_SLOTS && (Lost(Complete(s, c), i) <==> Starved(s, c))
  {
    Taken(s, c.op, i);
  }

  lemma LostOnAccept(s: State, c: Completion)
    requires Inv(s) && c.op == Accept && c.op in s.flight && c.res >= 0 && s.free != []
    ensures Lost(Complete(s, c), s.free[|s.free| - 1]) <==> Starved(s, c)
  {
    assert SlotOk(s, s.free[|s.free| - 1]);
  }

  lemma LostElsewhere(s: State, c: Completion, i: nat, j: nat)
    requires Inv(s) && c.op in s.flight && i < MAX_SLOTS && j < MAX_SLOTS && i != j
    requires if c.op.Accept? then s.free != [] && i == s.free[|s.free| - 1] else i == c.op.slot
    ensures Lost(Complete(s, c), j) <==> Lost(s, j)
  {
    CompleteTouchesOne(s, c, i);
    var s' := Complete(s, c);
    assert s'.flight[Recv(j)] == s.flight[Recv(j)] && s'.flight[Send(j)] == s.flight[Send(j)];
  }

  /** Every live connection owns exactly one operation or waiting write after a completion, exactly when
      every one did before and the handler was not starved of a submission entry or a place in the batch. */
  lemma NoneLostExactly(s: State, c: Completion)
    requires Inv(s) && c.op in s.flight
    ensures NoneLost(Complete(s, c)) <==> NoneLost(s) && !Starved(s, c)
  {
    if c.op.Accept? && (c.res < 0 || s.free == []) {
      forall j | 0 <= j < MAX_SLOTS ensures Lost(Complete(s, c), j) <==> Lost(s, j) {}
    } else {
      var i := SlotOf(s, c);
      if c.op.Accept? { LostOnAccept(s, c); } else { LostHere(s, c, i); }
      assert SlotOk(s, i);
      assert !Lost(s, i);
      forall j | 0 <= j < MAX_SLOTS && j != i ensures Lost(Complete(s, c), j) <==> Lost(s, j) { LostElsewhere(s, c, i, j); }
    }
  }

  /** A lost connection stays lost: its slot never comes back. */
  lemma LostForGood(s: State, c: Completion, j: nat)
    requires Inv(s) && c.op in s.flight && j < MAX_SLOTS && Lost(s, j)
    ensures Lost(Complete(s, c), j)
  {
    assert SlotOk(s, j);
    if c.op.Accept? && (c.res < 0 || s.free == []) {
    } else {
      var i := SlotOf(s, c);
      assert i != j;
      LostElsewhere(s, c, i, j);
    }
  }

  lemma AnswerFirstLost(s: State, response: seq<Byte>)
    requires Inv(s) && s.pending != []
    ensures NoneLost(AnswerFirst(s, response)) <==> NoneLost(s) && s.room > 0
    ensures AnswerFirst(s, response).room == if s.room > 0 then s.room - 1 else 0
  {
    var i, rest := s.pending[0], s.pending[1..];
    var s' := AnswerFirst(s, response);
    assert s.pending == [i] + rest;
    assert SlotOk(s, i);
    assert Lost(s', i) <==> s.room == 0;
    forall j: nat | j < |s.slots| && j != i ensures Lost(s', j) <==> Lost(s, j) {
      assert s'.flight[Recv(j)] == s.flight[Recv(j)] && s'.flight[Send(j)] == s.flight[Send(j)];
    }
  }

  /** A group commit loses no connection exactly when there are submission entries for all its answers. */
  lemma {:induction false} CommitLosesNone(s: State, answers: nat -> seq<Byte>, k: nat)
    requires Inv(s)
    ensures NoneLost(Commit(s, answers, k)) <==> NoneLost(s) && |s.pending| <= s.room
    decreases |s.pending|
  {
    if s.pending != [] {
      AnswerFirstOk(s, answers(k));
      AnswerFirstLost(s, answers(k));
      CommitLosesNone(AnswerFirst(s, answers(k)), answers, k + 1);
    }
  }

  // ----- The free stack has room for every slot -----

  lemma {:induction false} DistinctBelow(p: seq<nat>, n: nat)
    requires NoDup(p) && forall k :: 0 <= k < |p| ==> p[k] < n
    ensures |p| <= n
    decreases n
  {
    if p != [] {
      assert p[0] < n;
      if k :| 0 <= k < |p| && p[k] == n - 1 {
        var rest := p[..k] + p[k + 1..];
        DistinctBelow(rest, n - 1);
      } else {
        DistinctBelow(p, n - 1);
      }
    }
  }

  /** A live slot is not on the free stack, so there is room to push it: no slot is freed twice. */
  lemma RoomToFree(s: State, i: nat)
    requires Inv(s) && i < MAX_SLOTS && s.slots[i].state != Free
    ensures |s.free| < MAX_SLOTS
  {
    assert SlotOk(s, i);
    DistinctBelow(s.free + [i], MAX_SLOTS);
  }
}
