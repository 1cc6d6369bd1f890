/** The open-addressing table of stations and the map it stands for. */
module BrcTable {
  import opened Bytes
  import opened BrcRows

  const NSTA: nat := 65536

  datatype Stats = Stats(count: int, mn: int, mx: int, sum: int)

  const FRESH: Stats := Stats(0, 10000, -10000, 0)

  function Add(st: Stats, t: int): Stats {
    Stats(st.count + 1, if t < st.mn then t else st.mn, if t > st.mx then t else st.mx, st.sum + t)
  }

  function Get(m: map<Name, Stats>, n: Name): Stats { if n in m then m[n] else FRESH }

  function Put(m: map<Name, Stats>, r: Row): map<Name, Stats> { m[r.name := Add(Get(m, r.name), r.temp)] }

  /** What the table stands for after the given rows. */
  function Fold(rows: seq<Row>): map<Name, Stats> {
    if rows == [] then map[] else Put(Fold(rows[..|rows| - 1]), rows[|rows| - 1])
  }

  // ----- Hashing and probing -----

  /** FNV-1a on 32 bits. */
  function Fnv(name: Name): bv32 {
    if name == [] then 2166136261 else Mix(Fnv(name[..|name| - 1]), name[|name| - 1])
  }

  function Mix(h: bv32, b: Byte): bv32 { (h ^ (b as bv32)) * 16777619 }

  function Home(name: Name): (h: nat)
    ensures h < NSTA
  {
    (Fnv(name) as int) % NSTA
  }

  function At(h: nat, k: nat): (i: nat)
    ensures i < NSTA
  {
    (h + k) % NSTA
  }

  /** How far behind h the slot e is probed. */
  function Dist(h: nat, e: nat): (d: nat)
    requires h < NSTA && e < NSTA
    ensures d < NSTA && At(h, d) == e
  {
    if e >= h then e - h else e + NSTA - h
  }

  // ----- The invariant -----

  datatype Slot = Empty | Sta(name: Name, st: Stats)

  /** No gap on the way from the home of a station to its slot. */
  predicate Reached(s: seq<Slot>, e: nat)
    requires |s| == NSTA && e < NSTA && s[e].Sta?
  {
    forall j :: 0 <= j <= Dist(Home(s[e].name), e) ==> s[At(Home(s[e].name), j)].Sta?
  }

  predicate AllReached(s: seq<Slot>)
    requires |s| == NSTA
  {
    forall e :: 0 <= e < NSTA && s[e].Sta? ==> Reached(s, e)
  }

  /** No name has two slots. */
  predicate OneSlotEach(s: seq<Slot>) {
    forall e, f :: 0 <= e < f < |s| && s[e].Sta? && s[f].Sta? ==> s[e].name != s[f].name
  }

  /** The slots hold exactly the map m. */
  ghost predicate Holds(s: seq<Slot>, m: map<Name, Stats>) {
    && (forall e :: 0 <= e < |s| && s[e].Sta? ==> s[e].name in m && m[s[e].name] == s[e].st)
    && (forall n :: n in m ==> HasSlot(s, n))
  }

  ghost predicate HasSlot(s: seq<Slot>, n: Name) { exists e :: 0 <= e < |s| && s[e].Sta? && s[e].name == n }

  /** Probing for name stops at the k-th slot from its home. */
  predicate StopsAt(s: seq<Slot>, name: Name, k: nat)
    requires |s| == NSTA
  {
    var x := s[At(Home(name), k)];
    x.Empty? || x.name == name
  }

  /** The k-th probe is the first to stop. */
  predicate ProbedTo(s: seq<Slot>, name: Name, k: nat)
    requires |s| == NSTA
  {
    StopsAt(s, name, k) && forall j :: 0 <= j < k ==> !StopsAt(s, name, j)
  }

  /** Probing ends exactly when the name has a slot or some slot is empty. */
  lemma ProbeStops(s: seq<Slot>, name: Name)
    requires |s| == NSTA
    ensures (exists k: nat :: k < NSTA && StopsAt(s, name, k)) <==> exists e :: 0 <= e < NSTA && (s[e].Empty? || s[e].name == name)
    ensures (exists k: nat :: StopsAt(s, name, k)) ==> exists e :: 0 <= e < NSTA && (s[e].Empty? || s[e].name == name)
  {
    if e :| 0 <= e < NSTA && (s[e].Empty? || s[e].name == name) {
      assert StopsAt(s, name, Dist(Home(name), e));
    }
    if k: nat :| StopsAt(s, name, k) { assert 0 <= At(Home(name), k) < NSTA; }
  }

  /** Where probing first stops there is the name's slot, or the name has none. */
  lemma ProbeFinds(s: seq<Slot>, name: Name, k: nat)
    requires |s| == NSTA && AllReached(s) && ProbedTo(s, name, k) && k < NSTA
    ensures s[At(Home(name), k)].Empty? ==> forall e :: 0 <= e < NSTA && s[e].Sta? ==> s[e].name != name
  {
    if s[At(Home(name), k)].Empty? {
      forall e | 0 <= e < NSTA && s[e].Sta? ensures s[e].name != name {
        assert Reached(s, e);
        assert s[e].name == name ==> StopsAt(s, name, Dist(Home(name), e));
      }
    }
  }

  // ----- Storing -----

  /** A new station in the empty slot its probe stopped at. */
  lemma StoreNew(s: seq<Slot>, m: map<Name, Stats>, name: Name, k: nat, st: Stats)
    requires |s| == NSTA && AllReached(s) && OneSlotEach(s) && Holds(s, m) && k < NSTA
    requires ProbedTo(s, name, k) && s[At(Home(name), k)].Empty?
    ensures name !in m
    ensures var s' := s[At(Home(name), k) := Sta(name, st)];
            AllReached(s') && OneSlotEach(s') && Holds(s', m[name := st])
  {
    ProbeFinds(s, name, k);
    var idx := At(Home(name), k);
    var s' := s[idx := Sta(name, st)];
    forall e | 0 <= e < NSTA && s'[e].Sta? ensures Reached(s', e) {
      if e == idx {
        forall j | 0 <= j <= k ensures s'[At(Home(name), j)].Sta? {
          if j < k { assert !StopsAt(s, name, j); }
        }
      } else {
        assert Reached(s, e);
      }
    }
    HoldsNew(s, m, idx, name, st);
  }

  lemma HoldsNew(s: seq<Slot>, m: map<Name, Stats>, idx: nat, name: Name, st: Stats)
    requires idx < |s| && s[idx].Empty? && Holds(s, m)
    requires forall e :: 0 <= e < |s| && s[e].Sta? ==> s[e].name != name
    ensures name !in m && Holds(s[idx := Sta(name, st)], m[name := st])
  {
    var s' := s[idx := Sta(name, st)];
    forall n | n in m[name := st] ensures HasSlot(s', n) {
      if n == name { assert s'[idx].name == n; } else {
        var e :| 0 <= e < |s| && s[e].Sta? && s[e].name == n;
        assert s'[e].name == n;
      }
    }
  }

  /** New values for a station that has a slot. */
  lemma StoreOld(s: seq<Slot>, m: map<Name, Stats>, idx: nat, st: Stats)
    requires |s| == NSTA && AllReached(s) && OneSlotEach(s) && Holds(s, m)
    requires idx < NSTA && s[idx].Sta?
    ensures var s' := s[idx := s[idx].(st := st)];
            AllReached(s') && OneSlotEach(s') && Holds(s', m[s[idx].name := st])
  {
    var s' := s[idx := s[idx].(st := st)];
    forall e | 0 <= e < NSTA && s'[e].Sta? ensures Reached(s', e) { assert Reached(s, e); }
    forall n | n in m[s[idx].name := st] ensures HasSlot(s', n) {
      var e :| 0 <= e < |s| && s[e].Sta? && s[e].name == n;
      assert s'[e].name == n;
    }
  }

  // ----- There is always room -----

  function NamesIn(s: seq<Slot>): set<Name> { set e | 0 <= e < |s| && s[e].Sta? :: s[e].name }

  /** Full slots with one name each hold as many names as there are slots. */
  lemma {:induction false} FullSlots(s: seq<Slot>)
    requires OneSlotEach(s) && forall e :: 0 <= e < |s| ==> s[e].Sta?
    ensures |NamesIn(s)| == |s|
    decreases |s|
  {
    if s == [] { assert NamesIn(s) == {}; } else {
      var front, last := s[..|s| - 1], s[|s| - 1];
      FullSlots(front);
      assert NamesIn(s) == NamesIn(front) + {last.name};
      assert last.name !in NamesIn(front);
    }
  }

  lemma {:induction false} SmallerSet<T>(a: set<T>, b: set<T>)
    requires a <= b
    ensures |a| <= |b|
    decreases a
  {
    if x :| x in a { SmallerSet(a - {x}, b - {x}); }
  }

  /** A table for at most NSTA names has a slot for each of them. */
  lemma RoomForAll(s: seq<Slot>, m: map<Name, Stats>, names: set<Name>, name: Name)
    requires |s| == NSTA && OneSlotEach(s) && Holds(s, m)
    requires m.Keys <= names && name in names && |names| <= NSTA
    ensures exists e :: 0 <= e < NSTA && (s[e].Empty? || s[e].name == name)
  {
    if forall e :: 0 <= e < NSTA ==> s[e].Sta? {
      FullSlots(s);
      if name !in m {
        assert NamesIn(s) <= names - {name};
        SmallerSet(NamesIn(s), names - {name});
      }
    }
  }

  function NamesOf(rows: seq<Row>): set<Name> { set r | r in rows :: r.name }

  lemma {:induction false} FoldKeys(rows: seq<Row>)
    ensures Fold(rows).Keys == NamesOf(rows)
    decreases |rows|
  {
    if rows != [] {
      var front, last := rows[..|rows| - 1], rows[|rows| - 1];
      FoldKeys(front);
      assert rows == front + [last];
      assert NamesOf(rows) == NamesOf(front) + {last.name};
    }
  }

  // ----- The program -----

  class Table {
    const slots: array<Slot>
    ghost var stats: map<Name, Stats>

    ghost predicate Valid()
      reads this, slots
    {
      && slots.Length == NSTA
      && AllReached(slots[..]) && OneSlotEach(slots[..]) && Holds(slots[..], stats)
    }

    constructor ()
      ensures Valid() && fresh(slots) && stats == map[]
    {
      slots := new Slot[NSTA](_ => Empty);
      stats := map[];
      new;
      assert forall e :: 0 <= e < NSTA ==> slots[..][e] == Empty;
    }

    method Hash(name: Name) returns (idx: nat)
      ensures idx == Home(name)
    {
      var h: bv32 := 2166136261;
      for i := 0 to |name|
        invariant h == Fnv(name[..i])
      {
        assert name[..i + 1][..i] == name[..i];
        h := Mix(h, name[i]);
      }
      assert name[..|name|] == name;
      idx := (h as int) % NSTA;
    }

    /** The slot of a station, or the empty one to put it in. */
    method Probe(name: Name) returns (idx: nat, ghost k: nat)
      requires slots.Length == NSTA
      requires exists e :: 0 <= e < NSTA && (slots[e].Empty? || slots[e].name == name)
      ensures k < NSTA && idx == At(Home(name), k) && ProbedTo(slots[..], name, k)
      ensures idx < NSTA && (slots[idx].Empty? || slots[idx].name == name)
    {
      idx := Hash(name);
      k := 0;
      ghost var e :| 0 <= e < NSTA && (slots[e].Empty? || slots[e].name == name);
      assert StopsAt(slots[..], name, Dist(Home(name), e));
      while slots[idx].Sta? && slots[idx].name != name
        invariant k <= Dist(Home(name), e) && idx == At(Home(name), k)
        invariant forall j :: 0 <= j < k ==> !StopsAt(slots[..], name, j)
        decreases NSTA - k
      {
        assert !StopsAt(slots[..], name, k);
        idx := (idx + 1) % NSTA;
        k := k + 1;
      }
    }

    /** One row. */
    method Record(r: Row)
      requires Valid()
      requires exists e :: 0 <= e < NSTA && (slots[e].Empty? || slots[e].name == r.name)
      modifies this, slots
      ensures Valid() && stats == Put(old(stats), r)
    {
      var idx, k := Probe(r.name);
      ghost var st := Get(stats, r.name);
      ProbeFinds(slots[..], r.name, k);
      if slots[idx].Empty? { Enter(r.name, idx, k); }
      Update(idx, r.temp);
    }

    /** A new station. */
    method Enter(name: Name, idx: nat, ghost k: nat)
      requires Valid() && k < NSTA && idx == At(Home(name), k) && ProbedTo(slots[..], name, k) && slots[idx].Empty?
      modifies this, slots
      ensures Valid() && slots[idx] == Sta(name, FRESH)
      ensures name !in old(stats) && stats == old(stats)[name := FRESH]
    {
      StoreNew(slots[..], stats, name, k, FRESH);
      slots[idx] := Sta(name, FRESH);
      stats := stats[name := FRESH];
    }

    /** The counters of the station in a slot. */
    method Update(idx: nat, t: int)
      requires Valid() && idx < NSTA && slots[idx].Sta?
      modifies this, slots
      ensures Valid() && old(slots[idx].name) in old(stats)
      ensures stats == old(stats)[old(slots[idx].name) := Add(old(stats)[old(slots[idx].name)], t)]
    {
      assert slots[..][idx] == slots[idx];
      var s := slots[idx].st;
      s := s.(count := s.count + 1);
      if t < s.mn { s := s.(mn := t); }
      if t > s.mx { s := s.(mx := t); }
      s := s.(sum := s.sum + t);
      StoreOld(slots[..], stats, idx, s);
      stats := stats[slots[idx].name := s];
      slots[idx] := slots[idx].(st := s);
    }
  }
}
