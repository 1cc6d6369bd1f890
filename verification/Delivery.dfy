/** What a connection of the server engine puts on the wire while it sends one response. */
module Delivery {
  import opened Basics
  import opened Bytes
  import opened SlotEngine
  import opened SlotRuns

  /** Slot i is sending what its buffer holds; its offset says how much is out. */
  predicate Sending(s: State, i: nat) {
    Inv(s) && i < MAX_SLOTS && s.slots[i].state == Writing && s.slots[i].offset < s.slots[i].total == |s.slots[i].buf|
  }

  /** What the ring says about slot i's send among some completions, if it says something. */
  function SendResult(cs: seq<Completion>, i: nat): Option<int> {
    if cs == [] then None else if cs[0].op == Send(i) then Some(cs[0].res) else SendResult(cs[1..], i)
  }

  /** A completed send: it asked for what the buffer held from some offset on, and this many bytes were taken. */
  datatype Sent = Sent(offset: nat, res: int, buf: seq<Byte>) {
    /** The slot sends on after it. */
    predicate GoesOn(total: nat) { 0 < res && offset + res < total }

    function Out(): seq<Byte>
      requires offset + res <= |buf|
    {
      if res <= 0 then [] else buf[offset..offset + res]
    }
  }

  /** The sends of slot i turn by turn, until its response is out or its connection closed. */
  function Sends(s: State, i: nat, ts: seq<Turn>): seq<Sent>
    requires InRange(s) && i < MAX_SLOTS
    decreases |ts|
  {
    if ts == [] then [] else
    match SendResult(ts[0].done, i)
    case None => Sends(Next(s, ts[0]), i, ts[1..])
    case Some(res) =>
      var sent := Sent(s.slots[i].offset, res, s.slots[i].buf);
      if sent.GoesOn(s.slots[i].total) then [sent] + Sends(Next(s, ts[0]), i, ts[1..]) else [sent]
  }

  /** A send takes no more than it was asked to. */
  predicate WithinAsked(sends: seq<Sent>) { forall k :: 0 <= k < |sends| ==> sends[k].offset + sends[k].res <= |sends[k].buf| }

  /** The bytes that leave through the connection. */
  function Wire(sends: seq<Sent>): seq<Byte>
    requires WithinAsked(sends)
  {
    if sends == [] then [] else sends[0].Out() + Wire(sends[1..])
  }

  /** Every send took something. */
  predicate AllTook(sends: seq<Sent>) { forall k :: 0 <= k < |sends| ==> sends[k].res > 0 }

  function BytesTaken(sends: seq<Sent>): int { if sends == [] then 0 else sends[0].res + BytesTaken(sends[1..]) }

  /** Answering a request starts to send the response from its first byte. */
  lemma AnswerSends(s: State, i: nat, response: seq<Byte>)
    requires Inv(s) && Idle(s, i) && response != []
    ensures var s' := Answer(s, i, response); Sending(s', i) && s'.slots[i].buf == response && s'.slots[i].offset == 0
  {
    AnswerOk(s, i, response);
  }

  // ----- One slot through a turn -----

  /** Nothing that happens elsewhere touches the slot and its send. */
  predicate SameSend(s: State, s': State, i: nat)
    requires i < |s.slots| && i < |s'.slots|
  {
    s'.slots[i] == s.slots[i] && s'.flight[Send(i)] == s.flight[Send(i)]
  }

  lemma CompletionElsewhere(s: State, c: Completion, i: nat)
    requires Inv(s) && c.op in s.flight && i < MAX_SLOTS && s.slots[i].state == Writing && !OpOf(c.op, i)
    ensures SameSend(s, Complete(s, c), i)
  {
    if c.op.Accept? {
      if c.res >= 0 && s.free != [] {
        assert SlotOk(s, s.free[|s.free| - 1]) && s.free[|s.free| - 1] in s.free;
        CompleteTouchesOne(s, c, s.free[|s.free| - 1]);
      }
    } else {
      assert c.op.slot < MAX_SLOTS;
      CompleteTouchesOne(s, c, c.op.slot);
    }
  }

  lemma NotReceiving(s: State, i: nat)
    requires Inv(s) && i < MAX_SLOTS && s.slots[i].state == Writing
    ensures Recv(i) !in s.flight && i !in s.pending && s.flight[Send(i)] <= 1
  {
    assert SlotOk(s, i);
  }

  lemma {:induction false} CompletionsElsewhere(s: State, cs: seq<Completion>, i: nat)
    requires Inv(s) && Ops(cs) <= s.flight && i < MAX_SLOTS && s.slots[i].state == Writing && SendResult(cs, i) == None
    ensures SameSend(s, Completions(s, cs), i)
    decreases |cs|
  {
    if cs != [] {
      NotReceiving(s, i);
      OneDone(s, cs);
      CompletionElsewhere(s, cs[0], i);
      CompletionsElsewhere(Complete(s, cs[0]), cs[1..], i);
    }
  }

  lemma {:induction false} NoMoreSends(cs: seq<Completion>, i: nat)
    requires Ops(cs)[Send(i)] == 0
    ensures SendResult(cs, i) == None
  {
    if cs != [] { NoMoreSends(cs[1..], i); }
  }

  /** A send that is not the last one moves the offset by what it took. */
  predicate Moved(x: Slot, result: Option<int>, y: Slot) {
    match result
    case None => y == x
    case Some(res) => 0 < res && x.offset + res < x.total ==> y == x.(offset := x.offset + res)
  }

  lemma SendMoves(s: State, c: Completion, i: nat)
    requires InRange(s) && i < MAX_SLOTS && c.op == Send(i)
    ensures Moved(s.slots[i], Some(c.res), Complete(s, c).slots[i])
  {
  }

  /** Nothing else does. */
  lemma {:induction false} CompletionsSend(s: State, cs: seq<Completion>, i: nat)
    requires Inv(s) && Ops(cs) <= s.flight && i < MAX_SLOTS && s.slots[i].state == Writing
    ensures Moved(s.slots[i], SendResult(cs, i), Completions(s, cs).slots[i])
    decreases |cs|
  {
    if SendResult(cs, i).None? {
      CompletionsElsewhere(s, cs, i);
    } else {
      NotReceiving(s, i);
      OneDone(s, cs);
      var s' := Complete(s, cs[0]);
      if cs[0].op == Send(i) {
        assert Ops(cs) == multiset{Send(i)} + Ops(cs[1..]);
        NoMoreSends(cs[1..], i);
        SendMoves(s, cs[0], i);
        if s'.slots[i].state == Writing { CompletionsElsewhere(s', cs[1..], i); }
      } else {
        CompletionElsewhere(s, cs[0], i);
        CompletionsSend(s', cs[1..], i);
      }
    }
  }

  lemma {:induction false} CommitElsewhere(s: State, answers: nat -> seq<Byte>, k: nat, i: nat)
    requires Inv(s) && i < MAX_SLOTS && s.slots[i].state == Writing
    ensures Commit(s, answers, k).slots[i] == s.slots[i]
    decreases |s.pending|
  {
    if s.pending != [] {
      NotReceiving(s, i);
      AnswerFirstOk(s, answers(k));
      CommitElsewhere(AnswerFirst(s, answers(k)), answers, k + 1, i);
    }
  }

  lemma TurnSend(s: State, t: Turn, i: nat)
    requires Inv(s) && Possible(s, t) && i < MAX_SLOTS && s.slots[i].state == Writing
    ensures Moved(s.slots[i], SendResult(t.done, i), Next(s, t).slots[i])
  {
    var s0, a := s.(room := t.room), AfterCompletions(s, t);
    TurnStarts(s, t.room);
    CompletionsSend(s0, t.done, i);
    AfterCompletionsOk(s, t);
    assert a.slots == Completions(s0, t.done).slots;
    StillWriting(a, t.answers, i);
  }

  lemma StillWriting(s: State, answers: nat -> seq<Byte>, i: nat)
    requires Inv(s) && i < MAX_SLOTS
    ensures s.slots[i].state == Writing ==> Commit(s, answers, 0).slots[i] == s.slots[i]
  {
    if s.slots[i].state == Writing { CommitElsewhere(s, answers, 0, i); }
  }

  // ----- What goes out -----

  /** Each send asks for what the ones before it left, from the same buffer; unless the last one ended it,
      the slot is at `now`. */
  predicate Chained(x: Slot, sends: seq<Sent>, now: Slot)
    decreases |sends|
  {
    if sends == [] then now == x else
    && sends[0].offset == x.offset && sends[0].buf == x.buf
    && if sends[0].GoesOn(x.total) then Chained(x.(offset := x.offset + sends[0].res), sends[1..], now) else |sends| == 1
  }

  lemma SendingGoesOn(s: State, i: nat, t: Turn)
    requires Sending(s, i) && Possible(s, t)
    ensures var x, result := s.slots[i], SendResult(t.done, i);
            && Moved(x, result, Next(s, t).slots[i])
            && (result.None? || Sent(x.offset, result.value, x.buf).GoesOn(x.total) ==> Sending(Next(s, t), i))
  {
    TurnSend(s, t, i);
    TurnOk(s, t);
  }

  /** Whatever the other connections do: nobody else touches the slot, its buffer included. */
  lemma {:induction false} SendsAreChained(s: State, i: nat, ts: seq<Turn>)
    requires Sending(s, i) && PossibleRun(s, ts)
    ensures Chained(s.slots[i], Sends(s, i, ts), Run(s, ts).slots[i])
    decreases |ts|
  {
    if ts != [] {
      var s' := Next(s, ts[0]);
      SendingGoesOn(s, i, ts[0]);
      match SendResult(ts[0].done, i)
      case None => SendsAreChained(s', i, ts[1..]);
      case Some(res) =>
        var sent := Sent(s.slots[i].offset, res, s.slots[i].buf);
        if sent.GoesOn(s.slots[i].total) {
          SendsAreChained(s', i, ts[1..]);
          ChainGrows(s.slots[i], sent, Sends(s', i, ts[1..]), Run(s', ts[1..]).slots[i]);
        }
    }
  }

  lemma ChainGrows(x: Slot, sent: Sent, more: seq<Sent>, now: Slot)
    requires sent.offset == x.offset && sent.buf == x.buf && sent.GoesOn(x.total)
    requires Chained(x.(offset := x.offset + sent.res), more, now)
    ensures Chained(x, [sent] + more, now)
  {
    assert ([sent] + more)[1..] == more;
  }

  /** Chained sends bring out the front of what was left in the buffer, and all of it if and only if every
      one took something and together they took it all; until then the offset says how much is out. */
  lemma {:induction false} WireIsFront(x: Slot, sends: seq<Sent>, now: Slot)
    requires x.offset < |x.buf| == x.total && Chained(x, sends, now) && WithinAsked(sends)
    ensures var left, wire := x.buf[x.offset..], Wire(sends);
            && wire <= left && (wire == left <==> AllTook(sends) && BytesTaken(sends) == |left|)
            && (AllTook(sends) && wire != left ==> now == x.(offset := x.offset + |wire|))
    decreases |sends|
  {
    if sends != [] {
      var res, more := sends[0].res, sends[1..];
      if sends[0].GoesOn(x.total) {
        WireIsFront(x.(offset := x.offset + res), more, now);
        assert x.buf[x.offset..] == x.buf[x.offset..x.offset + res] + x.buf[x.offset + res..];
        assert AllTook(sends) <==> AllTook(more);
      } else {
        assert more == [];
      }
    }
  }

  /** A response from its first byte on, whatever the other connections do and however its sends are cut. */
  lemma DeliveredIsResponse(s: State, i: nat, ts: seq<Turn>)
    requires Sending(s, i) && s.slots[i].offset == 0 && PossibleRun(s, ts) && WithinAsked(Sends(s, i, ts))
    ensures var response, sends := s.slots[i].buf, Sends(s, i, ts); var wire := Wire(sends);
            && wire <= response
            && (wire == response <==> AllTook(sends) && BytesTaken(sends) == |response|)
            && (AllTook(sends) && wire != response ==> Run(s, ts).slots[i] == s.slots[i].(offset := |wire|))
  {
    var response := s.slots[i].buf;
    SendsAreChained(s, i, ts);
    WireIsFront(s.slots[i], Sends(s, i, ts), Run(s, ts).slots[i]);
    assert response[0..] == response;
  }
}
