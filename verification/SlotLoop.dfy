/** The engine's event loop on its arrays. */
module SlotLoop {
  import opened Bytes
  import opened SlotEngine

  class Engine {
    const slots: array<Slot>
    const freeSlots: array<nat>
    var freeCount: nat
    const pendingWrites: array<nat>
    var pendingCount: nat
    var room: nat
    ghost var flight: multiset<Op>

    ghost predicate Shaped()
      reads this
    {
      && slots.Length == MAX_SLOTS && freeSlots.Length == MAX_SLOTS && pendingWrites.Length == MAX_PENDING
      && freeSlots != pendingWrites && freeCount <= MAX_SLOTS && pendingCount <= MAX_PENDING
    }

    /** The state the arrays stand for. */
    ghost function Abs(): State
      reads this, slots, freeSlots, pendingWrites
      requires Shaped()
    {
      State(slots[..], freeSlots[..freeCount], pendingWrites[..pendingCount], flight, room)
    }

    ghost predicate Valid()
      reads this, slots, freeSlots, pendingWrites
    {
      Shaped() && Inv(Abs())
    }

    constructor ()
      ensures Valid() && fresh(slots) && fresh(freeSlots) && fresh(pendingWrites) && Abs() == Start()
    {
      slots := new Slot[MAX_SLOTS](_ => NO_SLOT);
      freeSlots := new nat[MAX_SLOTS](i => if i < MAX_SLOTS then MAX_SLOTS - 1 - i else 0);
      freeCount := MAX_SLOTS;
      pendingWrites := new nat[MAX_PENDING](_ => 0);
      pendingCount := 0;
      room := RING_ENTRIES;
      flight := multiset{Accept};
      new;
      StartOk();
      assert slots[..] == Start().slots && freeSlots[..MAX_SLOTS] == Start().free;
    }

    /** Take a submission entry and prepare an operation in it; nothing happens when there is none. */
    method Prepare(op: Op)
      requires Shaped()
      modifies this`room, this`flight
      ensures Shaped() && Abs() == Submit(old(Abs()), op)
    {
      if room > 0 {
        room := room - 1;
        flight := flight + multiset{op};
      }
    }

    /** Close a connection and push its slot; the code does this without looking. */
    method CloseSlot(i: nat)
      requires Valid() && Idle(Abs(), i)
      modifies this`freeCount, slots, freeSlots
      ensures Valid() && Abs() == Release(old(Abs()), i)
    {
      RoomToFree(Abs(), i);
      ReleaseOk(Abs(), i);
      var s := slots[i];
      if s.fd >= 0 { s := s.(fd := -1); }
      slots[i] := s.(state := Free);
      freeSlots[freeCount] := i;
      freeCount := freeCount + 1;
      assert Abs().free == old(Abs()).free + [i];
    }

    method Respond(i: nat, response: seq<Byte>)
      requires Shaped() && i < MAX_SLOTS
      modifies this`room, this`flight, slots
      ensures Shaped() && Abs() == Answer(old(Abs()), i, response)
    {
      slots[i] := slots[i].(buf := response);
      slots[i] := slots[i].(state := Writing, offset := 0, total := |response|);
      Prepare(Send(i));
    }

    method AcceptDone(res: int)
      requires Valid()
      modifies this`room, this`flight, this`freeCount, slots
      ensures Valid() && Abs() == OnAccept(old(Abs()), res)
    {
      AcceptOk(Abs(), res);
      if res >= 0 && freeCount > 0 {
        freeCount := freeCount - 1;
        var i := freeSlots[freeCount];
        assert old(Abs()).free[freeCount] == i;
        assert Abs().free == old(Abs()).free[..freeCount];
        slots[i] := slots[i].(fd := res, state := Reading, keepAlive := true, readLen := 0, offset := 0, total := 0);
        Prepare(Recv(i));
      }
    }

    method RecvDone(i: nat, res: int, req: Request)
      requires Valid() && Idle(Abs(), i)
      modifies this, slots, freeSlots, pendingWrites
      ensures Valid() && Abs() == OnRecv(old(Abs()), i, res, req)
    {
      RecvOk(Abs(), i, res, req);
      if res <= 0 {
        CloseSlot(i);
        return;
      }
      slots[i] := slots[i].(readLen := res);
      if req.close { slots[i] := slots[i].(keepAlive := false); }
      ghost var x := old(slots[i]).(readLen := res, keepAlive := old(slots[i]).keepAlive && !req.close);
      assert Abs() == Put(old(Abs()), i, x);
      if !req.write {
        Respond(i, req.answer);
      } else if pendingCount < MAX_PENDING {
        pendingWrites[pendingCount] := i;
        pendingCount := pendingCount + 1;
        assert Abs().pending == old(Abs()).pending + [i];
        slots[i] := slots[i].(state := Queued);
      }
    }

    method SendDone(i: nat, res: int)
      requires Valid() && Idle(Abs(), i) && Abs().slots[i].state == Writing
      modifies this, slots, freeSlots
      ensures Valid() && Abs() == OnSend(old(Abs()), i, res)
    {
      SendOk(Abs(), i, res);
      if res <= 0 {
        CloseSlot(i);
        return;
      }
      ghost var x := slots[i].(offset := slots[i].offset + res);
      PutLive(Abs(), i, x);
      slots[i] := slots[i].(offset := slots[i].offset + res);
      assert Abs() == Put(old(Abs()), i, x);
      if slots[i].offset < slots[i].total {
        Prepare(Send(i));
      } else if slots[i].keepAlive {
        slots[i] := slots[i].(state := Reading, readLen := 0, offset := 0, total := 0);
        Prepare(Recv(i));
      } else {
        CloseSlot(i);
      }
    }

    /** A completion as the ring hands it over: user data, result, and the request a receive brought. */
    method Handle(userData: nat, res: int, req: Request)
      requires Valid() && Decode(userData) in flight && Encode(Decode(userData)) == userData
      modifies this, slots, freeSlots, pendingWrites
      ensures Valid() && Abs() == Complete(old(Abs()), Completion(Decode(userData), res, req))
    {
      ghost var op := Decode(userData);
      CompleteOk(Abs(), Completion(op, res, req));
      ghost var s := Abs().(flight := flight - multiset{op});
      if op != Accept { Taken(Abs(), op, op.slot); }
      else { AcceptTaken(Abs()); }
      flight := flight - multiset{op};
      assert Abs() == s;
      if userData == 0 {
        AcceptDone(res);
      } else {
        var i := userData / 4;
        if i < MAX_SLOTS {
          if userData % 4 == 1 { RecvDone(i, res, req); } else { SendDone(i, res); }
        }
      }
    }

    /** The completions of a turn, in order; was the listener among them? */
    method HandleAll(done: seq<Completion>) returns (rearm: bool)
      requires Valid() && Ops(done) <= flight
      modifies this, slots, freeSlots, pendingWrites
      ensures Valid() && Abs() == Completions(old(Abs()), done) && (rearm <==> Accept in Ops(done))
    {
      ghost var s := Abs();
      assert done[0..] == done;
      rearm := false;
      for k := 0 to |done|
        invariant Valid() && Ops(done[k..]) <= flight
        invariant Completions(s, done) == Completions(Abs(), done[k..])
        invariant rearm || Accept in Ops(done[k..]) <==> Accept in Ops(done)
      {
        var c := done[k];
        assert done[k..][0] == c && done[k..][1..] == done[k + 1..];
        HandleReady(Abs(), c, done[k + 1..]);
        if c.op.Accept? { rearm := true; }
        Handle(Encode(c.op), c.res, c.req);
      }
      assert done[|done|..] == [];
    }

    /** One turn: the completions, the listener, the group commit. */
    method OneTurn(done: seq<Completion>, answers: nat -> seq<Byte>, room': nat)
      requires Valid() && Possible(Abs(), Turn(done, answers, room'))
      modifies this, slots, freeSlots, pendingWrites
      ensures Valid() && Abs() == Next(old(Abs()), Turn(done, answers, room'))
    {
      RoomIsFree(Abs(), room');
      room := room';
      ghost var s := Abs();
      CompletionsOk(s, done);
      var rearm := HandleAll(done);
      if rearm {
        RearmOk(Abs());
        Prepare(Accept);
      }
      CommitAll(answers);
    }

    method AnswerWaiting(k: nat, response: seq<Byte>)
      requires Shaped() && InRange(Abs()) && k < pendingCount
      modifies this`room, this`flight, slots
      ensures Shaped() && InRange(Abs()) && Abs().pending == old(Abs()).pending
      ensures Abs().(pending := Abs().pending[k + 1..])
           == AnswerFirst(old(Abs()).(pending := old(Abs()).pending[k..]), response)
    {
      ghost var waiting := Abs().pending;
      assert pendingWrites[k] == waiting[k] == waiting[k..][0];
      assert waiting[k..][1..] == waiting[k + 1..];
      Respond(pendingWrites[k], response);
    }

    /** The writes that wait are answered in order, and the batch is empty. */
    method CommitAll(answers: nat -> seq<Byte>)
      requires Valid()
      modifies this`room, this`flight, this`pendingCount, slots
      ensures Valid() && Abs() == Commit(old(Abs()), answers, 0)
    {
      ghost var s := Abs();
      CommitOk(s, answers, 0);
      ghost var waiting := s.pending;
      assert waiting[0..] == waiting;
      for k := 0 to pendingCount
        invariant Shaped() && pendingCount == |waiting| && Abs().pending == waiting
        invariant InRange(Abs())
        invariant Commit(s, answers, 0) == Commit(Abs().(pending := waiting[k..]), answers, k)
      {
        CommitStep(Abs().(pending := waiting[k..]), answers, k);
        AnswerWaiting(k, answers(k));
      }
      pendingCount := 0;
      assert waiting[|waiting|..] == [];
    }
  }

  lemma CommitStep(s: State, answers: nat -> seq<Byte>, k: nat)
    requires InRange(s) && s.pending != []
    ensures Commit(s, answers, k) == Commit(AnswerFirst(s, answers(k)), answers, k + 1)
  {
  }

  lemma AcceptTaken(s: State)
    requires Inv(s)
    ensures Inv(s.(flight := s.flight - multiset{Accept}))
  {
    var s' := s.(flight := s.flight - multiset{Accept});
    forall i | 0 <= i < MAX_SLOTS ensures SlotOk(s', i) { assert SlotOk(s, i); }
  }

  lemma RoomIsFree(s: State, room: nat)
    requires Inv(s)
    ensures Inv(s.(room := room))
  {
    forall i | 0 <= i < MAX_SLOTS ensures SlotOk(s.(room := room), i) { assert SlotOk(s, i); }
  }

  lemma HandleReady(s: State, c: Completion, rest: seq<Completion>)
    requires Inv(s) && multiset{c.op} + Ops(rest) <= s.flight
    ensures c.op in s.flight && Decode(Encode(c.op)) == c.op && Ops(rest) <= Complete(s, c).flight
  {
    assert c.op in multiset{c.op} + Ops(rest);
    CompleteOnlyAdds(s, c);
    OneLess(s.flight, Complete(s, c).flight, c.op, Ops(rest));
    DecodeUndoesEncode(c.op);
  }
}
