/** Which connections of the server engine end after an answer, by the history of completions. */
module SlotHistory {
  import opened Bytes
  import opened SlotEngine
  import opened SlotRuns

  /** What a completion tells about connections: slot i was given to a new one, or a request came in on slot i
      and said whether the connection is to be closed. */
  datatype Event = Opened(slot: nat) | Received(slot: nat, close: bool) | Other

  function EventOf(s: State, c: Completion): Event
    requires InRange(s)
  {
    match c.op
    case Accept => if c.res >= 0 && s.free != [] then Opened(s.free[|s.free| - 1]) else Other
    case Recv(i) => if c.res > 0 then Received(i, c.req.close) else Other
    case Send(_) => Other
  }

  /** The events of some completions, of a turn and of a run, in order. */
  function Events(s: State, cs: seq<Completion>): seq<Event>
    requires InRange(s)
    decreases |cs|
  {
    if cs == [] then [] else [EventOf(s, cs[0])] + Events(Complete(s, cs[0]), cs[1..])
  }

  function History(s: State, ts: seq<Turn>): seq<Event>
    requires InRange(s)
    decreases |ts|
  {
    if ts == [] then [] else Events(s.(room := ts[0].room), ts[0].done) + History(Next(s, ts[0]), ts[1..])
  }

  /** Some request received on slot i since it was last given to a connection said close. */
  predicate SaidClose(h: seq<Event>, i: nat) {
    exists k :: 0 <= k < |h| && h[k] == Received(i, true) && forall l :: k < l < |h| ==> h[l] != Opened(i)
  }

  lemma SaidOneMore(h: seq<Event>, e: Event, i: nat)
    ensures SaidClose(h + [e], i) <==> e == Received(i, true) || (e != Opened(i) && SaidClose(h, i))
  {
    var h' := h + [e];
    if e == Received(i, true) { assert h'[|h|] == e; }
    if k :| 0 <= k < |h| && h[k] == Received(i, true) && forall l :: k < l < |h| ==> h[l] != Opened(i) {
      if e != Opened(i) { assert h'[k] == h[k]; }
    }
    if k :| 0 <= k < |h'| && h'[k] == Received(i, true) && forall l :: k < l < |h'| ==> h'[l] != Opened(i) {
      assert h'[|h|] == e;
      if k < |h| {
        assert forall l :: k < l < |h| ==> h[l] == h'[l];
        assert SaidClose(h, i);
      }
    }
  }

  // ----- The flag of a slot remembers what its connection said -----

  predicate Remembers(s: State, h: seq<Event>) {
    forall i :: 0 <= i < |s.slots| && s.slots[i].state != Free ==> (s.slots[i].keepAlive <==> !SaidClose(h, i))
  }

  lemma FlagHere(s: State, c: Completion, i: nat, said: bool)
    requires Inv(s) && c.op in s.flight && i < MAX_SLOTS
    requires s.slots[i].state != Free ==> (s.slots[i].keepAlive <==> !said)
    requires if c.op.Accept? then c.res >= 0 && s.free != [] && i == s.free[|s.free| - 1] else i == c.op.slot
    ensures var x, e := Complete(s, c).slots[i], EventOf(s, c);
            x.state != Free ==> (x.keepAlive <==> !(e == Received(i, true) || (e != Opened(i) && said)))
  {
    assert s.slots[i].state != Free || c.op.Accept? by { assert SlotOk(s, i); }
    match c.op
    case Accept =>
    case Recv(_) =>
    case Send(_) =>
  }

  lemma FlagElsewhere(s: State, c: Completion, i: nat, j: nat)
    requires Inv(s) && c.op in s.flight && j < MAX_SLOTS && i < MAX_SLOTS && i != j
    requires if c.op.Accept? then c.res >= 0 && s.free != [] && i == s.free[|s.free| - 1] else i == c.op.slot
    ensures Complete(s, c).slots[j] == s.slots[j]
    ensures EventOf(s, c) != Opened(j) && forall b :: EventOf(s, c) != Received(j, b)
  {
    CompleteTouchesOne(s, c, i);
  }

  lemma CompleteRemembers(s: State, c: Completion, h: seq<Event>)
    requires Inv(s) && c.op in s.flight && Remembers(s, h)
    ensures Remembers(Complete(s, c), h + [EventOf(s, c)])
  {
    var s', e := Complete(s, c), EventOf(s, c);
    forall j | 0 <= j < MAX_SLOTS && s'.slots[j].state != Free ensures s'.slots[j].keepAlive <==> !SaidClose(h + [e], j) {
      SaidOneMore(h, e, j);
      if c.op.Accept? && (c.res < 0 || s.free == []) {
        assert s'.slots == s.slots;
      } else {
        var i := SlotOf(s, c);
        assert i < MAX_SLOTS;
        if i == j { FlagHere(s, c, i, SaidClose(h, i)); } else { FlagElsewhere(s, c, i, j); }
      }
    }
  }

  lemma EventsStep(s: State, cs: seq<Completion>, h: seq<Event>)
    requires InRange(s) && cs != []
    ensures (h + [EventOf(s, cs[0])]) + Events(Complete(s, cs[0]), cs[1..]) == h + Events(s, cs)
  {
  }

  lemma {:induction false} CompletionsRemember(s: State, cs: seq<Completion>, h: seq<Event>)
    requires Inv(s) && Ops(cs) <= s.flight && Remembers(s, h)
    ensures Remembers(Completions(s, cs), h + Events(s, cs))
    decreases |cs|
  {
    if cs == [] {
      assert h + [] == h;
    } else {
      OneDone(s, cs);
      CompleteRemembers(s, cs[0], h);
      CompletionsRemember(Complete(s, cs[0]), cs[1..], h + [EventOf(s, cs[0])]);
      EventsStep(s, cs, h);
    }
  }

  lemma {:induction false} CommitRemembers(s: State, answers: nat -> seq<Byte>, k: nat, h: seq<Event>)
    requires Inv(s) && Remembers(s, h)
    ensures Remembers(Commit(s, answers, k), h)
    decreases |s.pending|
  {
    if s.pending != [] {
      assert SlotOk(s, s.pending[0]);
      AnswerFirstOk(s, answers(k));
      CommitRemembers(AnswerFirst(s, answers(k)), answers, k + 1, h);
    }
  }

  lemma TurnRemembers(s: State, t: Turn, h: seq<Event>)
    requires Inv(s) && Possible(s, t) && Remembers(s, h)
    ensures Remembers(Next(s, t), h + Events(s.(room := t.room), t.done))
  {
    TurnStarts(s, t.room);
    CompletionsRemember(s.(room := t.room), t.done, h);
    AfterCompletionsOk(s, t);
    CommitRemembers(AfterCompletions(s, t), t.answers, 0, h + Events(s.(room := t.room), t.done));
  }

  lemma HistoryStep(s: State, ts: seq<Turn>, h: seq<Event>)
    requires InRange(s) && ts != []
    ensures (h + Events(s.(room := ts[0].room), ts[0].done)) + History(Next(s, ts[0]), ts[1..]) == h + History(s, ts)
  {
  }

  lemma {:induction false} RunRemembers(s: State, ts: seq<Turn>, h: seq<Event>)
    requires Inv(s) && PossibleRun(s, ts) && Remembers(s, h)
    ensures Inv(Run(s, ts)) && Remembers(Run(s, ts), h + History(s, ts))
    decreases |ts|
  {
    if ts == [] {
      assert h + [] == h;
    } else {
      var s', h' := Next(s, ts[0]), h + Events(s.(room := ts[0].room), ts[0].done);
      assert Inv(s') && Remembers(s', h') by {
        TurnOk(s, ts[0]);
        TurnRemembers(s, ts[0], h);
      }
      RunRemembers(s', ts[1..], h');
      HistoryStep(s, ts, h);
    }
  }

  // ----- The end of an answer -----

  /** A state the engine can be in between two completions, and the history up to there. */
  predicate Reached(s: State, h: seq<Event>, ts: seq<Turn>, room: nat, done: seq<Completion>)
    requires InRange(Start())
  {
    && PossibleRun(Start(), ts)
    && var s0 := Run(Start(), ts).(room := room);
       Ops(done) <= s0.flight && s == Completions(s0, done) && h == History(Start(), ts) + Events(s0, done)
  }

  lemma ReachedRemembers(s: State, h: seq<Event>, ts: seq<Turn>, room: nat, done: seq<Completion>)
    requires InRange(Start()) && Reached(s, h, ts, room, done)
    ensures Inv(s) && Remembers(s, h)
  {
    StartOk();
    RunRemembers(Start(), ts, []);
    assert [] + History(Start(), ts) == History(Start(), ts);
    var s0 := Run(Start(), ts);
    TurnStarts(s0, room);
    CompletionsOk(s0.(room := room), done);
    CompletionsRemember(s0.(room := room), done, History(Start(), ts));
  }

  /** The connection of slot i is closed and the slot can be given to another. */
  predicate Closed(s: State, i: nat)
    requires i < |s.slots|
  {
    s.slots[i].state == Free && s.slots[i].fd < 0 && i in s.free && Owned(s, i) == 0
  }

  /** The connection stays open and the slot waits for the next request. */
  predicate Waits(s: State, i: nat, fd: int, room: nat)
    requires i < |s.slots|
  {
    && s.slots[i].state == Reading && s.slots[i].fd == fd >= 0 && s.slots[i].offset == s.slots[i].total == 0
    && s.flight[Recv(i)] == (if room > 0 then 1 else 0)
  }

  lemma AnswerEnds(s: State, i: nat, c: Completion)
    requires Inv(s) && c.op == Send(i) && c.op in s.flight && i < MAX_SLOTS
    requires c.res > 0 && s.slots[i].offset + c.res >= s.slots[i].total
    ensures s.slots[i].state != Free
    ensures if s.slots[i].keepAlive then Waits(Complete(s, c), i, s.slots[i].fd, s.room) else Closed(Complete(s, c), i)
  {
    Taken(s, c.op, i);
  }

  /** In every run: when the last send of an answer has gone out, the connection is closed and its slot free
      if and only if some request received since the slot was last accepted said close; otherwise the
      connection stays open and the slot reads the next request. */
  lemma ClosedIffAsked(s: State, h: seq<Event>, ts: seq<Turn>, room: nat, done: seq<Completion>, i: nat, c: Completion)
    requires InRange(Start()) && Reached(s, h, ts, room, done)
    requires c.op == Send(i) && c.op in s.flight && c.res > 0
    requires i < MAX_SLOTS && s.slots[i].offset + c.res >= s.slots[i].total
    ensures Closed(Complete(s, c), i) <==> SaidClose(h, i)
    ensures Waits(Complete(s, c), i, s.slots[i].fd, s.room) <==> !SaidClose(h, i)
  {
    ReachedRemembers(s, h, ts, room, done);
    AnswerEnds(s, i, c);
  }

  /** An accepted connection is put into the slot its event names, which was free and waits for the first
      request. */
  lemma OpenedWaits(s: State, c: Completion, i: nat)
    requires Inv(s) && c.op in s.flight && EventOf(s, c) == Opened(i)
    ensures i < MAX_SLOTS && Closed(s, i) && Waits(Complete(s, c), i, c.res, s.room) && i !in Complete(s, c).free
  {
    assert SlotOk(s, i);
  }
}
