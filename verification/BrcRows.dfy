/** Measurement files: reading rows of bytes, and what a written row looks like. */
module BrcRows {
  import opened Bytes

  const SEMICOLON: Byte := 59
  const MINUS: Byte := 45
  const POINT: Byte := 46
  type Name = seq<Byte>

  /** A station and a temperature in tenths of a degree. */
  datatype Row = Row(name: Name, temp: int)

  // ----- Reading -----

  /** The value of a byte as a signed character. */
  function CharValue(b: Byte): int { if b < 128 then b else b - 256 }

  /** Digits, and one digit after a point; `next` is the byte behind the field, which the code reads when
      the field ends in its point. */
  function Tenths(s: seq<Byte>, next: Byte): int {
    var d := ReadDigits(s, 0);
    d.value * 10 + Fraction(d.rest, next)
  }

  function Fraction(s: seq<Byte>, next: Byte): int {
    if s == [] || s[0] != POINT then 0 else CharValue(if |s| == 1 then next else s[1]) - ZERO
  }

  /** With a sign; of an empty field the byte behind it is looked at. */
  function Temperature(field: seq<Byte>, next: Byte): int {
    if field == [] then 0 else if field[0] == MINUS then -Tenths(field[1..], next) else Tenths(field, next)
  }

  datatype Step = NoRow | OneRow(row: Row, rest: seq<Byte>)

  /** The first row of s and what stands behind it; the last newline may be missing. `past` is what
      lies behind the file. */
  function NextRow(s: seq<Byte>, past: Byte): (r: Step)
    ensures r.OneRow? ==> |r.rest| < |s|
  {
    var name := CutAt(s, SEMICOLON);
    if !name.found then NoRow else
    var field := CutAt(name.back, NEWLINE);
    OneRow(Row(name.front, Temperature(field.front, if field.found then NEWLINE else past)), field.back)
  }

  function Rows(s: seq<Byte>, past: Byte): seq<Row>
    decreases |s|
  {
    match NextRow(s, past)
    case NoRow => []
    case OneRow(row, rest) => [row] + Rows(rest, past)
  }

  // ----- Writing -----

  function WriteTenths(m: nat): seq<Byte> { DigitsOf(m / 10) + [POINT, (ZERO + m % 10) as Byte] }

  function WriteTemperature(t: int): seq<Byte> { if t < 0 then [MINUS] + WriteTenths(-t) else WriteTenths(t) }

  function WriteRow(r: Row): seq<Byte> { r.name + [SEMICOLON] + WriteTemperature(r.temp) + [NEWLINE] }

  function WriteRows(rows: seq<Row>): seq<Byte> {
    if rows == [] then [] else WriteRow(rows[0]) + WriteRows(rows[1..])
  }

  // ----- The round trip -----

  lemma TenthsReadBack(m: nat, next: Byte)
    ensures Tenths(WriteTenths(m), next) == m
    ensures WriteTenths(m)[0] != MINUS && NEWLINE !in WriteTenths(m)
  {
    var tail: seq<Byte> := [POINT, (ZERO + m % 10) as Byte];
    DigitsReadBack(m / 10);
    ReadDigitsAppend(DigitsOf(m / 10), tail, 0);
    assert ReadDigits(WriteTenths(m), 0) == Digits(m / 10, tail);
    assert IsDigit(DigitsOf(m / 10)[0]);
  }

  lemma TemperatureReadsBack(t: int, next: Byte)
    ensures Temperature(WriteTemperature(t), next) == t && NEWLINE !in WriteTemperature(t)
  {
    TenthsReadBack(if t < 0 then -t else t, next);
    if t < 0 { assert WriteTemperature(t)[1..] == WriteTenths(-t); }
  }

  /** A written row is read first, and then what stands behind it. */
  lemma FirstRow(r: Row, more: seq<Byte>, past: Byte)
    requires SEMICOLON !in r.name
    ensures NextRow(WriteRow(r) + more, past) == OneRow(r, more)
  {
    var t := WriteTemperature(r.temp);
    assert WriteRow(r) + more == r.name + [SEMICOLON] + (t + [NEWLINE] + more);
    CutInFront(r.name, SEMICOLON, t + [NEWLINE] + more);
    TemperatureReadsBack(r.temp, NEWLINE);
    CutInFront(t, NEWLINE, more);
  }

  /** A semicolon inside a name ends the name. */
  lemma NameIsCut(r: Row, more: seq<Byte>, past: Byte)
    requires SEMICOLON in r.name
    ensures var x := NextRow(WriteRow(r) + more, past); x.OneRow? && x.row != r
  {
    CutIsFirst(WriteRow(r) + more, SEMICOLON);
    assert SEMICOLON in WriteRow(r) + more;
  }

  predicate NamesAreClean(rows: seq<Row>) { forall r :: r in rows ==> SEMICOLON !in r.name }

  /** Reading written rows gives the rows back, exactly when no name contains a semicolon. */
  lemma {:induction false} RowsReadBack(rows: seq<Row>, past: Byte)
    ensures Rows(WriteRows(rows), past) == rows <==> NamesAreClean(rows)
    decreases |rows|
  {
    if rows != [] {
      var r, tail := rows[0], rows[1..];
      assert rows == [r] + tail;
      if SEMICOLON in r.name { NameIsCut(r, WriteRows(tail), past); } else {
        FirstRow(r, WriteRows(tail), past);
        RowsReadBack(tail, past);
        assert Rows(WriteRows(rows), past)[1..] == Rows(WriteRows(tail), past);
      }
    }
  }
}
