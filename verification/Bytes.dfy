/** Byte strings: searching in them, and decimal numbers. */
module Bytes {
  type Byte = b: int | 0 <= b < 256

  const NEWLINE: Byte := 10
  const ZERO: Byte := 48
  const NINE: Byte := 57

  predicate IsDigit(b: Byte) { ZERO <= b <= NINE }

  datatype Digits = Digits(value: int, rest: seq<Byte>)

  function ReadDigits(s: seq<Byte>, acc: int): Digits
    decreases |s|
  {
    if s != [] && IsDigit(s[0]) then ReadDigits(s[1..], acc * 10 + (s[0] - ZERO)) else Digits(acc, s)
  }

  function DigitsOf(n: nat): (r: seq<Byte>)
    ensures r != [] && forall i :: 0 <= i < |r| ==> IsDigit(r[i])
  {
    (if n < 10 then [] else DigitsOf(n / 10)) + [(ZERO + n % 10) as Byte]
  }

  lemma {:induction false} ReadDigitsAppend(ds: seq<Byte>, tail: seq<Byte>, acc: int)
    requires forall i :: 0 <= i < |ds| ==> IsDigit(ds[i])
    ensures ReadDigits(ds + tail, acc) == ReadDigits(tail, ReadDigits(ds, acc).value)
    decreases |ds|
  {
    if ds == [] { assert [] + tail == tail; } else {
      assert (ds + tail)[1..] == ds[1..] + tail;
      ReadDigitsAppend(ds[1..], tail, acc * 10 + (ds[0] - ZERO));
    }
  }

  lemma {:induction false} DigitsReadBack(n: nat)
    ensures ReadDigits(DigitsOf(n), 0).value == n
  {
    var last: Byte := (ZERO + n % 10) as Byte;
    assert [last][1..] == [];
    if n < 10 {
      assert DigitsOf(n) == [last];
    } else {
      DigitsReadBack(n / 10);
      ReadDigitsAppend(DigitsOf(n / 10), [last], 0);
    }
  }

  /** A byte string cut at the first c: what stands in front of it, whether it is there, what stands behind. */
  datatype Cut = Cut(front: seq<Byte>, found: bool, back: seq<Byte>)

  function CutAt(s: seq<Byte>, c: Byte): (r: Cut)
    ensures |r.front| + |r.back| + (if r.found then 1 else 0) == |s|
  {
    if s == [] then Cut([], false, [])
    else if s[0] == c then Cut([], true, s[1..])
    else var r := CutAt(s[1..], c); Cut([s[0]] + r.front, r.found, r.back)
  }

  lemma {:induction false} CutIsFirst(s: seq<Byte>, c: Byte)
    ensures var r := CutAt(s, c);
      && c !in r.front && (r.found <==> c in s)
      && s == if r.found then r.front + [c] + r.back else r.front
    decreases |s|
  {
    if s == [] {
    } else if s[0] == c {
      assert s == [] + [c] + s[1..];
    } else {
      CutIsFirst(s[1..], c);
    }
  }

  lemma {:induction false} CutInFront(a: seq<Byte>, c: Byte, b: seq<Byte>)
    requires c !in a
    ensures CutAt(a + [c] + b, c) == Cut(a, true, b)
    ensures CutAt(a, c) == Cut(a, false, [])
    decreases |a|
  {
    var s := a + [c] + b;
    if a == [] { assert s[1..] == b; } else {
      assert s[1..] == a[1..] + [c] + b && a == [a[0]] + a[1..];
      CutInFront(a[1..], c, b);
    }
  }
}
