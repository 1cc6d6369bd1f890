/** Two runs from the start, with every submission entry free in every turn, in which the engine loses a
    connection and in which it stops listening. */
module SlotLosses {
  import opened Bytes
  import opened SlotEngine
  import opened SlotRuns

  const GET: Request := Request(false, [65], false)
  const POST: Request := Request(true, [], false)
  const FD: int := 3

  function NoAnswers(): nat -> seq<Byte> { k => [65] }

  // ----- Connections come in, one a turn -----

  const ACCEPTED: Turn := Turn([Completion(Accept, FD, GET)], NoAnswers(), RING_ENTRIES)

  function Accepts(n: nat): seq<Turn> { if n == 0 then [] else [ACCEPTED] + Accepts(n - 1) }

  /** n connections wait for a request each, and nothing else is going on. */
  predicate Waiting(s: State, n: nat) {
    && Inv(s) && n <= MAX_SLOTS && s.pending == [] && s.flight[Accept] == 1
    && (forall i: nat :: i < n ==> Recv(i) in s.flight)
    && s.free == seq(MAX_SLOTS - n, i => MAX_SLOTS - 1 - i)
  }

  lemma StartWaits()
    ensures Waiting(Start(), 0)
  {
    StartOk();
    assert seq(MAX_SLOTS, i => MAX_SLOTS - 1 - i) == seq(MAX_SLOTS - 0, i => MAX_SLOTS - 1 - i);
  }

  lemma OneAccept(s: State, n: nat)
    requires Waiting(s, n) && n < MAX_SLOTS
    ensures Possible(s, ACCEPTED) && Waiting(Next(s, ACCEPTED), n + 1)
  {
    var c := ACCEPTED.done[0];
    assert ACCEPTED.done[1..] == [];
    assert Ops(ACCEPTED.done) == multiset{Accept};
    TurnOk(s, ACCEPTED);
    var s0 := s.(room := RING_ENTRIES);
    assert Completions(s0, ACCEPTED.done) == Complete(s0, c);
    assert s.free[|s.free| - 1] == n;
    var a := AfterCompletions(s, ACCEPTED);
    assert a.pending == [] && Next(s, ACCEPTED) == a;
    assert a.free == s.free[..|s.free| - 1] == seq(MAX_SLOTS - (n + 1), i => MAX_SLOTS - 1 - i);
  }

  lemma {:induction false} ManyAccepts(s: State, m: nat, n: nat, ts: seq<Turn>)
    requires Waiting(s, m) && m + n <= MAX_SLOTS && ts == Accepts(n)
    ensures PossibleRun(s, ts) && Waiting(Run(s, ts), m + n)
    decreases n
  {
    if n > 0 {
      var t, more := ts[0], ts[1..];
      assert t == ACCEPTED && more == Accepts(n - 1);
      OneAccept(s, m);
      ManyAccepts(Next(s, t), m + 1, n - 1, more);
      RunCons(s, ts);
    }
  }

  /** The first turn of a run. */
  lemma RunCons(s: State, ts: seq<Turn>)
    requires InRange(s) && ts != []
    ensures PossibleRun(s, ts) <==> Possible(s, ts[0]) && PossibleRun(Next(s, ts[0]), ts[1..])
    ensures Run(s, ts) == Run(Next(s, ts[0]), ts[1..])
  {
  }

  /** One more turn at the end of a run. */
  lemma {:induction false} RunSnoc(s: State, ts: seq<Turn>, t: Turn)
    requires InRange(s)
    ensures PossibleRun(s, ts + [t]) <==> PossibleRun(s, ts) && Possible(Run(s, ts), t)
    ensures Run(s, ts + [t]) == Next(Run(s, ts), t)
    decreases |ts|
  {
    if ts == [] {
      assert (ts + [t])[1..] == [];
    } else {
      assert (ts + [t])[1..] == ts[1..] + [t];
      RunSnoc(Next(s, ts[0]), ts[1..], t);
    }
  }

  // ----- Each waiting connection from k on brings one request -----

  function Requests(k: nat, n: nat, req: Request, more: seq<Completion>): seq<Completion>
    decreases n - k
  {
    if k >= n then more else [Completion(Recv(k), 1, req)] + Requests(k + 1, n, req, more)
  }

  lemma {:induction false} RequestOps(k: nat, n: nat, req: Request, more: seq<Completion>)
    requires k <= n
    ensures forall op :: Ops(Requests(k, n, req, more))[op] == Ops(more)[op] + (if op.Recv? && k <= op.slot < n then 1 else 0)
    decreases n - k
  {
    if k < n {
      var all := Requests(k, n, req, more);
      RequestOps(k + 1, n, req, more);
      assert all[0].op == Recv(k) && all[1..] == Requests(k + 1, n, req, more);
      assert Ops(all) == multiset{Recv(k)} + Ops(all[1..]);
    }
  }

  // ----- A full batch loses a connection -----

  const POSTS: Turn := Turn(Requests(0, MAX_PENDING + 1, POST, []), NoAnswers(), RING_ENTRIES)

  lemma {:induction false} PostsFillBatch(s: State, k: nat)
    requires Inv(s) && k <= MAX_PENDING && |s.pending| == k && Ops(Requests(k, MAX_PENDING + 1, POST, [])) <= s.flight
    ensures !NeverStarved(s, Requests(k, MAX_PENDING + 1, POST, []))
    decreases MAX_PENDING - k
  {
    var cs := Requests(k, MAX_PENDING + 1, POST, []);
    assert cs[0] == Completion(Recv(k), 1, POST) && cs[1..] == Requests(k + 1, MAX_PENDING + 1, POST, []);
    if k < MAX_PENDING {
      OneDone(s, cs);
      PostsFillBatch(Complete(s, cs[0]), k + 1);
    }
  }

  function LossRun(): seq<Turn> { Accepts(MAX_PENDING + 1) + [POSTS] }

  lemma PostsLoseOne(s: State)
    requires Waiting(s, MAX_PENDING + 1)
    ensures Possible(s, POSTS) && !NoneLost(Next(s, POSTS))
  {
    RequestOps(0, MAX_PENDING + 1, POST, []);
    assert Ops(POSTS.done) <= s.flight;
    TurnStarts(s, RING_ENTRIES);
    PostsFillBatch(s.(room := RING_ENTRIES), 0);
    TurnLosesNone(s, POSTS);
  }

  /** 129 connections ask for a write in one turn; the last one is never answered and its slot never freed. */
  lemma ConnectionIsLost()
    ensures forall t :: t in LossRun() ==> t.room == RING_ENTRIES
    ensures InRange(Start()) && PossibleRun(Start(), LossRun())
    ensures !AllFed(Start(), LossRun()) && !NoneLost(Run(Start(), LossRun()))
  {
    var n := MAX_PENDING + 1;
    StartWaits();
    ManyAccepts(Start(), 0, n, Accepts(n));
    PostsLoseOne(Run(Start(), Accepts(n)));
    RunSnoc(Start(), Accepts(n), POSTS);
    EveryRunKeepsAllOwned(LossRun());
    AllRoom(n);
  }

  lemma {:induction false} AllRoom(n: nat)
    ensures forall t :: t in Accepts(n) ==> t.room == RING_ENTRIES
  {
    if n > 0 { AllRoom(n - 1); }
  }

  // ----- A turn that uses up the entries loses the listener -----

  const REFUSED: Completion := Completion(Accept, -1, GET)

  const GETS: Turn := Turn(Requests(0, RING_ENTRIES, GET, [REFUSED]), NoAnswers(), RING_ENTRIES)

  lemma {:induction false} GetsUseEntries(s: State, k: nat)
    requires Inv(s) && k <= RING_ENTRIES && s.room == RING_ENTRIES - k
    requires Ops(Requests(k, RING_ENTRIES, GET, [REFUSED])) <= s.flight
    ensures Completions(s, Requests(k, RING_ENTRIES, GET, [REFUSED])).room == 0
    decreases RING_ENTRIES - k
  {
    var cs := Requests(k, RING_ENTRIES, GET, [REFUSED]);
    if k < RING_ENTRIES {
      assert cs[0] == Completion(Recv(k), 1, GET) && cs[1..] == Requests(k + 1, RING_ENTRIES, GET, [REFUSED]);
      OneDone(s, cs);
      GetsUseEntries(Complete(s, cs[0]), k + 1);
    } else {
      assert cs[1..] == [];
    }
  }

  function DeafRun(): seq<Turn> { Accepts(RING_ENTRIES) + [GETS] }

  lemma GetsAreInFlight(s: State)
    requires Waiting(s, RING_ENTRIES)
    ensures Possible(s, GETS) && Ops(GETS.done)[Accept] == 1
  {
    RequestOps(0, RING_ENTRIES, GET, [REFUSED]);
    assert [REFUSED][1..] == [];
    assert Ops([REFUSED]) == multiset{Accept};
  }

  lemma GetsLoseListener(s: State)
    requires Waiting(s, RING_ENTRIES)
    ensures Possible(s, GETS) && Next(s, GETS).flight[Accept] == 0
  {
    GetsAreInFlight(s);
    TurnStarts(s, RING_ENTRIES);
    GetsUseEntries(s.(room := RING_ENTRIES), 0);
    TurnKeepsListener(s, GETS);
    TurnOk(s, GETS);
  }

  /** 1024 connections are answered in one turn in which an accept fails: no entry is left to accept again,
      and the server never does. */
  lemma ListenerIsLost()
    ensures forall t :: t in DeafRun() ==> t.room == RING_ENTRIES
    ensures InRange(Start()) && PossibleRun(Start(), DeafRun())
    ensures !AlwaysRearmed(Start(), DeafRun()) && Run(Start(), DeafRun()).flight[Accept] == 0
  {
    var n := RING_ENTRIES;
    StartWaits();
    ManyAccepts(Start(), 0, n, Accepts(n));
    GetsLoseListener(Run(Start(), Accepts(n)));
    RunSnoc(Start(), Accepts(n), GETS);
    RunKeepsListener(Start(), DeafRun());
    AllRoom(n);
  }
}
