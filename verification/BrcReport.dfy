/** From bytes to the report: the aggregation loop, what it computes, and why the order of the rows
    does not matter. */
module BrcReport {
  import opened Basics
  import opened Bytes
  import opened BrcRows
  import opened BrcTable

  // ----- The loop over the file -----

  /** The digits in front, and what stands behind them. */
  method ReadWhole(s: seq<Byte>) returns (ip: int, q: seq<Byte>)
    ensures ReadDigits(s, 0) == Digits(ip, q)
  {
    ip, q := 0, s;
    while q != [] && IsDigit(q[0])
      invariant ReadDigits(s, 0) == ReadDigits(q, ip)
      decreases |q|
    {
      ip := ip * 10 + (q[0] - ZERO);
      q := q[1..];
    }
  }

  /** The temperature in a field; `next` is the byte behind it. */
  method ReadTemperature(field: seq<Byte>, next: Byte) returns (t: int)
    ensures t == Temperature(field, next)
  {
    var q, neg, fp := field, (if field == [] then next else field[0]) == MINUS, 0;
    if neg && field != [] { q := field[1..]; }
    var ip;
    ip, q := ReadWhole(q);
    if q != [] && q[0] == POINT { fp := CharValue(if |q| == 1 then next else q[1]) - ZERO; }
    t := ip * 10 + fp;
    if neg { t := -t; }
  }

  /** One row of what is left of the file, if there is another. */
  method ReadRow(rest: seq<Byte>, past: Byte) returns (x: Step)
    ensures x == NextRow(rest, past)
  {
    var name := CutAt(rest, SEMICOLON);
    if !name.found { return NoRow; }
    var field := CutAt(name.back, NEWLINE);
    var t := ReadTemperature(field.front, if field.found then NEWLINE else past);
    return OneRow(Row(name.front, t), field.back);
  }

  /** The table stands for the fold of the rows in the file, for any file with at most NSTA stations. The
      cursor is kept as the bytes from it on. */
  method Aggregate(s: seq<Byte>, past: Byte) returns (table: Table)
    requires |NamesOf(Rows(s, past))| <= NSTA
    ensures fresh(table) && fresh(table.slots) && table.Valid() && table.stats == Fold(Rows(s, past))
  {
    table := new Table();
    var rest := s;
    ghost var done: seq<Row> := [];
    while rest != []
      invariant fresh(table) && fresh(table.slots) && table.Valid() && table.stats == Fold(done)
      invariant Rows(s, past) == done + Rows(rest, past)
      decreases |rest|
    {
      var x := ReadRow(rest, past);
      if x.NoRow? { break; }
      Regroup(done, [x.row], Rows(x.rest, past));
      FindRoom(table.slots[..], table.stats, Rows(s, past), done, x.row, Rows(x.rest, past));
      table.Record(x.row);
      done := done + [x.row];
      rest := x.rest;
    }
    assert done + [] == done;
  }

  lemma FindRoom(slots: seq<Slot>, m: map<Name, Stats>, all: seq<Row>, done: seq<Row>, r: Row, rest: seq<Row>)
    requires |slots| == NSTA && OneSlotEach(slots) && Holds(slots, m)
    requires m == Fold(done) && all == (done + [r]) + rest && |NamesOf(all)| <= NSTA
    ensures exists e :: 0 <= e < NSTA && (slots[e].Empty? || slots[e].name == r.name)
  {
    FoldKeys(done);
    assert all[|done|] == r;
    forall n | n in NamesOf(done) ensures n in NamesOf(all) {
      var x :| x in done && x.name == n;
      assert x in all;
    }
    RoomForAll(slots, m, NamesOf(all), r.name);
  }

  // ----- The order of the rows does not matter -----

  lemma PutCommutes(m: map<Name, Stats>, a: Row, b: Row)
    ensures Put(Put(m, a), b) == Put(Put(m, b), a)
  {
  }

  /** A row can be aggregated last instead of where it stands. */
  lemma {:induction false} MoveToEnd(front: seq<Row>, r: Row, back: seq<Row>)
    ensures Fold(front + [r] + back) == Put(Fold(front + back), r)
    decreases |back|
  {
    if back == [] {
      assert front + [r] + back == front + [r] && front + back == front;
    } else {
      var init, last := back[..|back| - 1], back[|back| - 1];
      MoveToEnd(front, r, init);
      assert front + [r] + back == (front + [r] + init) + [last] && front + back == (front + init) + [last];
      PutCommutes(Fold(front + init), r, last);
    }
  }

  lemma RemoveOne(init: seq<Row>, front: seq<Row>, r: Row, back: seq<Row>)
    requires multiset(init + [r]) == multiset(front + [r] + back)
    ensures multiset(init) == multiset(front + back)
  {
    assert multiset(init) == multiset(init + [r]) - multiset{r};
  }

  /** Files with the same rows in any order give the same table. */
  lemma {:induction false} FoldIgnoresOrder(a: seq<Row>, b: seq<Row>)
    requires multiset(a) == multiset(b)
    ensures Fold(a) == Fold(b)
    decreases |a|
  {
    if a == [] {
      assert |multiset(b)| == 0;
    } else {
      var r, init := a[|a| - 1], a[..|a| - 1];
      assert a == init + [r] && r in multiset(b);
      var k :| 0 <= k < |b| && b[k] == r;
      var front, back := b[..k], b[k + 1..];
      assert b == front + [r] + back;
      RemoveOne(init, front, r, back);
      FoldIgnoresOrder(init, front + back);
      MoveToEnd(front, r, back);
    }
  }

  // ----- The reference dictionary -----

  /** The dictionary starts a station with its first temperature; the table starts it with sentinels. */
  function RefPut(m: map<Name, Stats>, r: Row): map<Name, Stats> {
    m[r.name := if r.name in m then Add(m[r.name], r.temp) else Stats(1, r.temp, r.temp, r.temp)]
  }

  function Reference(rows: seq<Row>): map<Name, Stats> {
    if rows == [] then map[] else RefPut(Reference(rows[..|rows| - 1]), rows[|rows| - 1])
  }

  function Min(a: int, b: int): int { if a < b then a else b }

  function Max(a: int, b: int): int { if a > b then a else b }

  /** The table and the dictionary agree, station by station, except that the table's extremes stop at
      its sentinels. */
  lemma {:induction false} TableRefinesDictionary(rows: seq<Row>)
    ensures Fold(rows).Keys == Reference(rows).Keys
    ensures forall n :: n in Reference(rows) ==> var c, d := Fold(rows)[n], Reference(rows)[n];
      c == Stats(d.count, Min(10000, d.mn), Max(-10000, d.mx), d.sum)
    decreases |rows|
  {
    if rows != [] { TableRefinesDictionary(rows[..|rows| - 1]); }
  }

  predicate WithinSentinels(st: Stats) { st.mn <= 10000 && st.mx >= -10000 }

  /** So a station is reported the same by both exactly when its extremes are within the sentinels. */
  lemma SameReportWithinSentinels(rows: seq<Row>, n: Name)
    requires n in Reference(rows)
    ensures n in Fold(rows)
    ensures Fold(rows)[n] == Reference(rows)[n] <==> WithinSentinels(Reference(rows)[n])
  {
    TableRefinesDictionary(rows);
  }

  /** The temperatures of one station. */
  function Temps(rows: seq<Row>, n: Name): seq<int> {
    if rows == [] then [] else
    Temps(rows[..|rows| - 1], n) + (if rows[|rows| - 1].name == n then [rows[|rows| - 1].temp] else [])
  }

  function Sum(ts: seq<int>): int { if ts == [] then 0 else Sum(ts[..|ts| - 1]) + ts[|ts| - 1] }

  predicate Summarises(st: Stats, ts: seq<int>) {
    && st.count == |ts| && st.sum == Sum(ts)
    && st.mn in ts && st.mx in ts && (forall t :: t in ts ==> st.mn <= t <= st.mx)
  }

  /** What the dictionary says of a station: how many rows, their sum, their least and greatest temperature. */
  lemma {:induction false} DictionaryMeaning(rows: seq<Row>, n: Name)
    ensures n in Reference(rows) <==> Temps(rows, n) != []
    ensures n in Reference(rows) ==> Summarises(Reference(rows)[n], Temps(rows, n))
    decreases |rows|
  {
    if rows != [] {
      var init, last := rows[..|rows| - 1], rows[|rows| - 1];
      DictionaryMeaning(init, n);
      var ts := Temps(init, n);
      if last.name == n {
        assert (ts + [last.temp])[..|ts|] == ts;
        if n !in Reference(init) { assert ts + [last.temp] == [last.temp] && Sum([last.temp][..0]) == 0; }
      } else {
        assert ts + [] == ts;
      }
    }
  }

  lemma {:induction false} SumBounds(ts: seq<int>, lo: int, hi: int)
    requires forall i :: 0 <= i < |ts| ==> lo <= ts[i] <= hi
    ensures |ts| * lo <= Sum(ts) <= |ts| * hi
    decreases |ts|
  {
    if ts != [] {
      var n := |ts| - 1;
      SumBounds(ts[..n], lo, hi);
      assert |ts| * lo == n * lo + lo && |ts| * hi == n * hi + hi;
    }
  }

  // ----- The mean -----

  /** Exact integer tenths. */
  function Mean(total: int, cnt: int): int
    requires cnt > 0
  {
    if total >= 0 then (2 * total + cnt) / (2 * cnt) else -((2 * -total + cnt) / (2 * cnt))
  }

  function Abs(x: int): int { if x < 0 then -x else x }

  /** m is total / cnt rounded to the nearest integer, away from zero when it lies half-way. */
  predicate RoundsTo(m: int, total: int, cnt: int) {
    var off := Abs(2 * cnt * m - 2 * total);
    off <= cnt && (off == cnt ==> Abs(cnt * m) > Abs(total))
  }

  lemma {:induction false} Division(x: nat, c: nat, q: int)
    requires c > 0
    ensures x / c == q <==> c * q <= x < c * q + c
  {
    var d := x / c;
    assert x == c * d + x % c;
    if d < q { NextMultiple(c, d, q); }
    if d > q { NextMultiple(c, q, d); }
  }

  lemma RoundsToNonNegative(m: int, total: int, cnt: int)
    requires cnt > 0 && total >= 0
    ensures RoundsTo(m, total, cnt) <==> 2 * cnt * m <= 2 * total + cnt < 2 * cnt * m + 2 * cnt
  {
    assert 2 * cnt * m == 2 * (cnt * m);
    var x := cnt * m;
    if m < 0 { assert x <= -cnt; }
    if m >= 0 { assert x >= 0; }
  }

  /** The printed mean is the one and only correctly rounded mean. */
  lemma MeanIsRounded(m: int, total: int, cnt: int)
    requires cnt > 0
    ensures m == Mean(total, cnt) <==> RoundsTo(m, total, cnt)
  {
    if total >= 0 {
      RoundsToNonNegative(m, total, cnt);
      Division(2 * total + cnt, 2 * cnt, m);
    } else {
      RoundsToNonNegative(-m, -total, cnt);
      Division(2 * -total + cnt, 2 * cnt, -m);
      assert cnt * -m == -(cnt * m) && 2 * cnt * -m == -(2 * cnt * m);
    }
  }

  /** The mean of a station lies between its least and its greatest temperature. */
  lemma MeanIsBetween(rows: seq<Row>, n: Name)
    requires n in Reference(rows)
    ensures var st := Reference(rows)[n]; st.count > 0 && st.mn <= Mean(st.sum, st.count) <= st.mx
  {
    var st := Reference(rows)[n];
    DictionaryMeaning(rows, n);
    SummaryBounds(st, Temps(rows, n));
    MeanIsRounded(Mean(st.sum, st.count), st.sum, st.count);
    BetweenBounds(Mean(st.sum, st.count), st);
  }

  lemma SummaryBounds(st: Stats, ts: seq<int>)
    requires Summarises(st, ts)
    ensures st.count > 0 && st.count * st.mn <= st.sum <= st.count * st.mx
  {
    forall i | 0 <= i < |ts| ensures st.mn <= ts[i] <= st.mx { assert ts[i] in ts; }
    SumBounds(ts, st.mn, st.mx);
  }

  lemma BetweenBounds(m: int, st: Stats)
    requires st.count > 0 && RoundsTo(m, st.sum, st.count) && st.count * st.mn <= st.sum <= st.count * st.mx
    ensures st.mn <= m <= st.mx
  {
    var c, x := st.count, st.count * m;
    assert 2 * c * m == 2 * x;
    if m < st.mn { NextMultiple(c, m, st.mn); }
    if m > st.mx { NextMultiple(c, st.mx, m); }
  }

  lemma NextMultiple(c: int, a: int, b: int)
    requires c > 0 && a < b
    ensures c * a + c <= c * b
  {
    var d := b - a - 1;
    assert c * d >= 0;
    assert c * b == c * (a + 1 + d) == c * a + c + c * d;
  }
}
