/** The printed report: stations in the order of their names, one line each. */
module BrcOrder {
  import opened Bytes
  import opened BrcRows
  import opened BrcTable
  import opened BrcReport

  // ----- The order of names -----

  /** The first k bytes compared as unsigned bytes. */
  function MemCmp(a: Name, b: Name, k: nat): int
    requires k <= |a| && k <= |b|
    decreases k
  {
    if k == 0 then 0 else if a[0] != b[0] then a[0] - b[0] else MemCmp(a[1..], b[1..], k - 1)
  }

  function NameCmp(a: Name, b: Name): int {
    var c := MemCmp(a, b, if |a| < |b| then |a| else |b|);
    if c != 0 then c else |a| - |b|
  }

  lemma {:induction false} NameCmpIsAntisymmetric(a: Name, b: Name)
    ensures NameCmp(a, b) == -NameCmp(b, a)
    ensures NameCmp(a, b) == 0 <==> a == b
    decreases |a|
  {
    if a != [] && b != [] {
      NameCmpIsAntisymmetric(a[1..], b[1..]);
      assert a == [a[0]] + a[1..] && b == [b[0]] + b[1..];
    }
  }

  lemma {:induction false} NameCmpIsTransitive(a: Name, b: Name, c: Name)
    requires NameCmp(a, b) < 0 && NameCmp(b, c) < 0
    ensures NameCmp(a, c) < 0
    decreases |a|
  {
    if a != [] && b != [] && c != [] {
      if a[0] == b[0] == c[0] { NameCmpIsTransitive(a[1..], b[1..], c[1..]); }
    }
  }

  /** Up to some place the names are the same, and there the first one ends or has the smaller byte. */
  predicate ComesFirst(a: Name, b: Name) {
    exists k :: 0 <= k <= |a| && k < |b| && a[..k] == b[..k] && (k == |a| || a[k] < b[k])
  }

  /** The order is the one of a dictionary. */
  lemma {:induction false} NameCmpIsDictionaryOrder(a: Name, b: Name)
    ensures NameCmp(a, b) < 0 <==> ComesFirst(a, b)
    decreases |a|
  {
    if a == [] || b == [] {
      if b != [] { assert a[..0] == b[..0]; }
    } else if a[0] != b[0] {
      assert a[..0] == b[..0];
      OtherHead(a, b);
    } else {
      NameCmpIsDictionaryOrder(a[1..], b[1..]);
      SameHead(a, b);
    }
  }

  lemma OtherHead(a: Name, b: Name)
    requires a != [] && b != [] && a[0] != b[0]
    ensures forall k :: 0 < k <= |a| && k < |b| ==> a[..k] != b[..k]
  {
    forall k | 0 < k <= |a| && k < |b| ensures a[..k] != b[..k] { assert a[..k][0] == a[0] && b[..k][0] == b[0]; }
  }

  lemma SameHead(a: Name, b: Name)
    requires a != [] && b != [] && a[0] == b[0]
    ensures ComesFirst(a, b) <==> ComesFirst(a[1..], b[1..])
  {
    var x, y := a[1..], b[1..];
    if k :| 0 <= k <= |a| && k < |b| && a[..k] == b[..k] && (k == |a| || a[k] < b[k]) {
      assert k > 0;
      assert x[..k - 1] == a[..k][1..] && y[..k - 1] == b[..k][1..];
    }
    if k :| 0 <= k <= |x| && k < |y| && x[..k] == y[..k] && (k == |x| || x[k] < y[k]) {
      assert a[..k + 1] == [a[0]] + x[..k] && b[..k + 1] == [b[0]] + y[..k];
    }
  }

  predicate Ascending(names: seq<Name>) { forall i, j :: 0 <= i < j < |names| ==> NameCmp(names[i], names[j]) < 0 }

  function Elements(names: seq<Name>): set<Name> { set n | n in names }

  lemma LeastComesFirst(x: seq<Name>, y: seq<Name>)
    requires Ascending(x) && Ascending(y) && Elements(x) == Elements(y) && x != []
    ensures y != [] && x[0] == y[0]
  {
    assert x[0] in Elements(y);
    assert y[0] in Elements(x);
    var j :| 0 <= j < |y| && y[j] == x[0];
    var i :| 0 <= i < |x| && x[i] == y[0];
    NameCmpIsAntisymmetric(x[0], y[0]);
  }

  lemma TailElements(x: seq<Name>)
    requires Ascending(x) && x != []
    ensures Ascending(x[1..]) && Elements(x[1..]) == Elements(x) - {x[0]}
  {
    NameCmpIsAntisymmetric(x[0], x[0]);
    assert x == [x[0]] + x[1..];
  }

  /** A set of names can be put in order in one way only: the report does not depend on the sort. */
  lemma {:induction false} OrderIsUnique(x: seq<Name>, y: seq<Name>)
    requires Ascending(x) && Ascending(y) && Elements(x) == Elements(y)
    ensures x == y
    decreases |x|
  {
    if x != [] {
      LeastComesFirst(x, y);
      TailElements(x);
      TailElements(y);
      OrderIsUnique(x[1..], y[1..]);
      assert x == [x[0]] + x[1..] && y == [y[0]] + y[1..];
    } else if y != [] {
      LeastComesFirst(y, x);
    }
  }

  // ----- The report -----

  /** The numbers of one line, in tenths. */
  datatype Line = Line(name: Name, mn: int, mean: int, mx: int)

  function LineOf(n: Name, st: Stats): Line
    requires st.count > 0
  {
    Line(n, st.mn, Mean(st.sum, st.count), st.mx)
  }

  function NamesOfLines(out: seq<Line>): seq<Name> { seq(|out|, i requires 0 <= i < |out| => out[i].name) }

  predicate IsReport(out: seq<Line>, m: map<Name, Stats>) {
    && Ascending(NamesOfLines(out)) && Elements(NamesOfLines(out)) == m.Keys
    && forall i :: 0 <= i < |out| ==>
         out[i].name in m && m[out[i].name].count > 0 && out[i] == LineOf(out[i].name, m[out[i].name])
  }

  lemma ReportIsUnique(a: seq<Line>, b: seq<Line>, m: map<Name, Stats>)
    requires IsReport(a, m) && IsReport(b, m)
    ensures a == b
  {
    OrderIsUnique(NamesOfLines(a), NamesOfLines(b));
    assert |a| == |NamesOfLines(a)| == |b|;
    forall i | 0 <= i < |a| ensures a[i] == b[i] { assert NamesOfLines(a)[i] == NamesOfLines(b)[i]; }
  }

  /** What a line of the report says of its station, by the temperatures of the rows: their mean to the nearest
      tenth, and their least and greatest as far as the sentinels. */
  lemma LineMeaning(rows: seq<Row>, out: seq<Line>, i: nat)
    requires IsReport(out, Fold(rows)) && i < |out|
    ensures var ts := Temps(rows, out[i].name);
            && ts != [] && RoundsTo(out[i].mean, Sum(ts), |ts|)
            && (out[i].mn == 10000 || out[i].mn in ts) && out[i].mn <= 10000 && (forall t :: t in ts ==> out[i].mn <= t)
            && (out[i].mx == -10000 || out[i].mx in ts) && out[i].mx >= -10000 && (forall t :: t in ts ==> t <= out[i].mx)
  {
    var n := out[i].name;
    TableRefinesDictionary(rows);
    DictionaryMeaning(rows, n);
    MeanIsRounded(out[i].mean, Sum(Temps(rows, n)), |Temps(rows, n)|);
  }

  /** Every station of the rows has its line, and they are in the order of the dictionary. */
  lemma LinesCoverStations(rows: seq<Row>, out: seq<Line>)
    requires IsReport(out, Fold(rows))
    ensures forall n :: Temps(rows, n) != [] <==> exists i :: 0 <= i < |out| && out[i].name == n
    ensures forall i, j :: 0 <= i < j < |out| ==> ComesFirst(out[i].name, out[j].name)
  {
    TableRefinesDictionary(rows);
    forall n ensures Temps(rows, n) != [] <==> exists i :: 0 <= i < |out| && out[i].name == n {
      DictionaryMeaning(rows, n);
      assert n in Fold(rows) <==> n in Elements(NamesOfLines(out));
      if n in NamesOfLines(out) {
        var i :| 0 <= i < |out| && NamesOfLines(out)[i] == n;
        assert out[i].name == n;
      }
    }
    forall i, j | 0 <= i < j < |out| ensures ComesFirst(out[i].name, out[j].name) {
      assert NameCmp(NamesOfLines(out)[i], NamesOfLines(out)[j]) < 0;
      NameCmpIsDictionaryOrder(out[i].name, out[j].name);
    }
  }

  /** Files with the same rows, in whatever order, are reported the same. */
  lemma ReportIgnoresRowOrder(rows: seq<Row>, rows': seq<Row>, out: seq<Line>, out': seq<Line>)
    requires multiset(rows) == multiset(rows')
    requires IsReport(out, Fold(rows)) && IsReport(out', Fold(rows'))
    ensures out == out'
  {
    FoldIgnoresOrder(rows, rows');
    ReportIsUnique(out, out', Fold(rows));
  }

  /** The program reports what the reference script does if and only if every station's extremes are within
      the sentinels of the table. */
  lemma ReportIsReferenceIff(rows: seq<Row>, out: seq<Line>)
    requires IsReport(out, Fold(rows))
    ensures IsReport(out, Reference(rows)) <==> forall n :: n in Reference(rows) ==> WithinSentinels(Reference(rows)[n])
  {
    TableRefinesDictionary(rows);
    var c, d := Fold(rows), Reference(rows);
    assert forall i :: 0 <= i < |out| ==> out[i].name in d && d[out[i].name].count > 0;
    if IsReport(out, d) {
      forall n | n in d ensures WithinSentinels(d[n]) {
        assert n in Elements(NamesOfLines(out));
        var i :| 0 <= i < |out| && NamesOfLines(out)[i] == n;
        assert out[i] == LineOf(n, c[n]) == LineOf(n, d[n]);
      }
    }
    if forall n :: n in d ==> WithinSentinels(d[n]) {
      forall n | n in d ensures c[n] == d[n] { SameReportWithinSentinels(rows, n); }
    }
  }

  /** One reading of 1000.1 degrees is enough: the program reports a least temperature of 1000.0. */
  lemma SentinelCutsOff(n: Name)
    ensures var rows := [Row(n, 10001)]; var out := [Line(n, 10000, 10001, 10001)];
            IsReport(out, Fold(rows)) && !IsReport(out, Reference(rows))
  {
    var rows, out := [Row(n, 10001)], [Line(n, 10000, 10001, 10001)];
    assert rows[..0] == [];
    assert Fold(rows) == map[n := Stats(1, 10000, 10001, 10001)];
    assert Reference(rows) == map[n := Stats(1, 10001, 10001, 10001)];
    assert Mean(10001, 1) == 10001;
    assert NamesOfLines(out) == [n];
    ReportIsReferenceIff(rows, out);
  }

  lemma CountsArePositive(rows: seq<Row>, n: Name)
    requires n in Fold(rows)
    ensures Fold(rows)[n].count > 0
  {
    TableRefinesDictionary(rows);
    DictionaryMeaning(rows, n);
  }

  /** The slots in use, in the order of the table. */
  method Collect(table: Table) returns (order: seq<Slot>)
    requires table.Valid()
    ensures forall x :: x in order <==> x.Sta? && x in table.slots[..]
    ensures forall i, j :: 0 <= i < j < |order| ==> order[i].name != order[j].name
  {
    order := [];
    ghost var all := table.slots[..];
    for i := 0 to NSTA
      invariant forall x :: x in order <==> x.Sta? && x in all[..i]
      invariant forall j, k :: 0 <= j < k < |order| ==> order[j].name != order[k].name
    {
      assert all[..i + 1] == all[..i] + [all[i]];
      if table.slots[i].Sta? {
        NameIsNew(all, i, order);
        order := order + [table.slots[i]];
      }
    }
    assert all[..NSTA] == all;
  }

  lemma NameIsNew(all: seq<Slot>, i: nat, order: seq<Slot>)
    requires i < |all| && all[i].Sta? && OneSlotEach(all)
    requires forall x :: x in order <==> x.Sta? && x in all[..i]
    ensures forall x :: x in order ==> x.Sta? && x.name != all[i].name
  {
    forall x | x in order ensures x.name != all[i].name {
      var e :| 0 <= e < i && all[..i][e] == x;
    }
  }

  // ----- The library's sort, as any function that returns an ordered permutation -----

  predicate Sorted(order: seq<Slot>) {
    && (forall x :: x in order ==> x.Sta?)
    && forall i, j :: 0 <= i < j < |order| ==> NameCmp(order[i].name, order[j].name) < 0
  }

  function Insert(x: Slot, order: seq<Slot>): (r: seq<Slot>) {
    if order == [] || (x.Sta? && order[0].Sta? && NameCmp(x.name, order[0].name) < 0) then [x] + order
    else [order[0]] + Insert(x, order[1..])
  }

  function SortByName(order: seq<Slot>): seq<Slot> {
    if order == [] then [] else Insert(order[0], SortByName(order[1..]))
  }

  lemma {:induction false} InsertKeeps(x: Slot, order: seq<Slot>)
    ensures forall y :: y in Insert(x, order) <==> y == x || y in order
  {
    if order != [] {
      InsertKeeps(x, order[1..]);
      assert order == [order[0]] + order[1..];
    }
  }

  lemma {:induction false} InsertSorts(x: Slot, order: seq<Slot>)
    requires x.Sta? && Sorted(order) && forall y :: y in order ==> y.name != x.name
    ensures Sorted(Insert(x, order))
  {
    if order == [] {
    } else if NameCmp(x.name, order[0].name) < 0 {
      forall j | 0 < j < |order| ensures NameCmp(x.name, order[j].name) < 0 {
        NameCmpIsTransitive(x.name, order[0].name, order[j].name);
      }
    } else {
      var rest := Insert(x, order[1..]);
      InsertSorts(x, order[1..]);
      InsertKeeps(x, order[1..]);
      NameCmpIsAntisymmetric(x.name, order[0].name);
      forall j | 0 <= j < |rest| ensures NameCmp(order[0].name, rest[j].name) < 0 { assert rest[j] in rest; }
    }
  }

  lemma {:induction false} SortSorts(order: seq<Slot>)
    requires forall x :: x in order ==> x.Sta?
    requires forall i, j :: 0 <= i < j < |order| ==> order[i].name != order[j].name
    ensures Sorted(SortByName(order)) && forall y :: y in SortByName(order) <==> y in order
  {
    if order != [] {
      SortSorts(order[1..]);
      InsertSorts(order[0], SortByName(order[1..]));
      InsertKeeps(order[0], SortByName(order[1..]));
    }
  }

  /** The whole program: the report of a file is the report of its rows. */
  method Report(s: seq<Byte>, past: Byte) returns (out: seq<Line>)
    requires |NamesOf(Rows(s, past))| <= NSTA
    ensures IsReport(out, Fold(Rows(s, past)))
  {
    var table := Aggregate(s, past);
    var used := Collect(table);
    var order := SortByName(used);
    SortSorts(used);
    ghost var m := Fold(Rows(s, past));
    OrderCoversMap(table.slots[..], m, used, order);
    out := [];
    for i := 0 to |order|
      invariant |out| == i
      invariant forall k :: 0 <= k < i ==> order[k].st.count > 0 && out[k] == LineOf(order[k].name, order[k].st)
    {
      CountsArePositive(Rows(s, past), order[i].name);
      out := out + [LineOf(order[i].name, order[i].st)];
    }
    LinesAreReport(out, order, m);
  }

  lemma OrderCoversMap(slots: seq<Slot>, m: map<Name, Stats>, used: seq<Slot>, order: seq<Slot>)
    requires Holds(slots, m) && (forall x :: x in used <==> x.Sta? && x in slots)
    requires Sorted(order) && forall x :: x in order <==> x in used
    ensures forall i :: 0 <= i < |order| ==> order[i].name in m && m[order[i].name] == order[i].st
    ensures forall n :: n in m ==> exists i :: 0 <= i < |order| && order[i].name == n
  {
    forall i | 0 <= i < |order| ensures order[i].name in m && m[order[i].name] == order[i].st {
      assert order[i] in used;
      var e :| 0 <= e < |slots| && slots[e] == order[i];
    }
    forall n | n in m ensures exists i :: 0 <= i < |order| && order[i].name == n {
      assert HasSlot(slots, n);
      var e :| 0 <= e < |slots| && slots[e].Sta? && slots[e].name == n;
      assert slots[e] in used && slots[e] in order;
    }
  }

  lemma LinesAreReport(out: seq<Line>, order: seq<Slot>, m: map<Name, Stats>)
    requires Sorted(order) && |out| == |order|
    requires forall i :: 0 <= i < |order| ==> order[i].name in m && m[order[i].name] == order[i].st
    requires forall n :: n in m ==> exists i :: 0 <= i < |order| && order[i].name == n
    requires forall k :: 0 <= k < |out| ==> order[k].st.count > 0 && out[k] == LineOf(order[k].name, order[k].st)
    ensures IsReport(out, m)
  {
    var names := NamesOfLines(out);
    forall n | n in m.Keys ensures n in names {
      var i :| 0 <= i < |order| && order[i].name == n;
      assert names[i] == n;
    }
    assert Elements(names) == m.Keys;
  }
}
