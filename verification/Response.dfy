/** Responses of the server engine: how they are built, sent in pieces, and read by a client. */
module Response {
  import opened Basics
  import opened Bytes
  import opened SlotEngine
  import opened Delivery

  const CR: Byte := 13

  function Ascii(s: string): seq<Byte> { seq(|s|, i requires 0 <= i < |s| => (s[i] as int % 256) as Byte) }

  // ----- Decimal numbers -----

  const TMP: nat := 24

  function Pow10(k: nat): nat { if k == 0 then 1 else 10 * Pow10(k - 1) }

  lemma {:induction false} DigitCount(v: nat, k: nat)
    requires 0 < k && v < Pow10(k)
    ensures |DigitsOf(v)| <= k
    decreases k
  {
    if v >= 10 { DigitCount(v / 10, k - 1); }
  }

  function Reversed(s: seq<Byte>): seq<Byte> { if s == [] then [] else Reversed(s[1..]) + [s[0]] }

  lemma {:induction false} ReversedSnoc(s: seq<Byte>, b: Byte)
    ensures Reversed(s + [b]) == [b] + Reversed(s)
    decreases |s|
  {
    if s == [] { assert [] + [b] == [b] && [b][1..] == []; } else {
      assert (s + [b])[1..] == s[1..] + [b];
      ReversedSnoc(s[1..], b);
    }
  }

  /** Digits are taken off the low end into a scratch array and copied out backwards. */
  method FastU64toa(buf: array<Byte>, p: nat, v: nat) returns (q: nat)
    requires v < 0x1_0000_0000_0000_0000 && p + |DigitsOf(v)| <= buf.Length
    modifies buf
    ensures q == p + |DigitsOf(v)| && buf[..q] == old(buf[..p]) + DigitsOf(v)
  {
    if v == 0 {
      assert DigitsOf(0) == [] + [ZERO];
      buf[p] := ZERO;
      return p + 1;
    }
    Powers();
    DigitCount(v, 20);
    var tmp := new Byte[TMP];
    var i := PutDigits(tmp, v);
    ReversedLength(tmp[..i]);
    q := CopyBack(buf, p, tmp, i);
  }

  /** The digits, last one first. */
  method PutDigits(tmp: array<Byte>, v: nat) returns (i: nat)
    requires v > 0 && |DigitsOf(v)| <= tmp.Length
    modifies tmp
    ensures i <= tmp.Length && Reversed(tmp[..i]) == DigitsOf(v)
  {
    var x := v;
    i := 0;
    assert tmp[..0] == [];
    while x > 0
      invariant i + (if x > 0 then |DigitsOf(x)| else 0) == |DigitsOf(v)|
      invariant DigitsOf(v) == (if x > 0 then DigitsOf(x) else []) + Reversed(tmp[..i])
      decreases x
    {
      ghost var before, front := tmp[..i], if x / 10 > 0 then DigitsOf(x / 10) else [];
      LastDigit(x);
      tmp[i] := (x % 10 + ZERO) as Byte;
      i := i + 1;
      assert tmp[..i] == before + [tmp[i - 1]];
      ReversedSnoc(before, tmp[i - 1]);
      Regroup(front, [tmp[i - 1]], Reversed(before));
      x := x / 10;
    }
    assert [] + Reversed(tmp[..i]) == Reversed(tmp[..i]);
  }

  lemma LastDigit(x: nat)
    requires x > 0
    ensures DigitsOf(x) == (if x / 10 > 0 then DigitsOf(x / 10) else []) + [(x % 10 + ZERO) as Byte]
  {
  }

  lemma Powers()
    ensures Pow10(20) == 100_000_000_000_000_000_000
  {
    assert Pow10(5) == 100_000;
    assert Pow10(10) == 10_000_000_000;
    assert Pow10(15) == 1_000_000_000_000_000;
  }

  lemma {:induction false} ReversedLength(s: seq<Byte>)
    ensures |Reversed(s)| == |s|
  {
    if s != [] { ReversedLength(s[1..]); }
  }

  method CopyBack(buf: array<Byte>, p: nat, tmp: array<Byte>, n: nat) returns (q: nat)
    requires n <= tmp.Length && p + n <= buf.Length && buf != tmp
    modifies buf
    ensures q == p + n && buf[..q] == old(buf[..p]) + Reversed(tmp[..n])
  {
    q := p;
    var i := n;
    while i > 0
      invariant 0 <= i <= n && q == p + (n - i)
      invariant buf[..q] + Reversed(tmp[..i]) == old(buf[..p]) + Reversed(tmp[..n])
    {
      i := i - 1;
      assert tmp[..i + 1] == tmp[..i] + [tmp[i]];
      ReversedSnoc(tmp[..i], tmp[i]);
      ghost var before := buf[..q];
      buf[q] := tmp[i];
      q := q + 1;
      assert buf[..q] == before + [tmp[i]];
      Regroup(before, [tmp[i]], Reversed(tmp[..i]));
    }
    assert tmp[..0] == [] && buf[..q] + [] == buf[..q];
  }

  // ----- The response -----

  const STATUS: string := "HTTP/1.1 200 OK\r"
  const SERVER: string := "Server: HolyPHP-MaxOut\r"
  const JSON: string := "Content-Type: application/json\r"
  const PLAIN: string := "Content-Type: text/plain\r"
  const KEEP: string := "Connection: keep-alive\r"
  const CLOSE: string := "Connection: close\r"
  const LENGTH: string := "Content-Length: "

  function HeaderLine(s: string): seq<Byte> { Ascii(s) + [NEWLINE] }

  function LengthLine(n: nat): seq<Byte> { (Ascii(LENGTH) + (DigitsOf(n) + [CR])) + [NEWLINE] }

  function MakeResponse(body: seq<Byte>, json: bool, keepAlive: bool): seq<Byte> {
    HeaderLine(STATUS) + (HeaderLine(SERVER) + (HeaderLine(if json then JSON else PLAIN) + (LengthLine(|body|)
      + (HeaderLine(if keepAlive then KEEP else CLOSE) + ([CR] + [NEWLINE] + body)))))
  }

  method Copy(buf: array<Byte>, p: nat, s: seq<Byte>) returns (q: nat)
    requires p + |s| <= buf.Length
    modifies buf
    ensures q == p + |s| && buf[..q] == old(buf[..p]) + s
  {
    forall k | 0 <= k < |s| { buf[p + k] := s[k]; }
    q := p + |s|;
  }

  // ----- Reading a response: the length of the body is its Content-Length (section 6.2 of RFC 9112) -----

  /** The body of a message, given the length seen so far in its header lines. */
  function ReadMessage(s: seq<Byte>, length: Option<int>): Option<seq<Byte>>
    decreases |s|
  {
    var line := CutAt(s, NEWLINE);
    if !line.found then None
    else if line.front == [CR] then
      if length.Some? && 0 <= length.value <= |line.back| then Some(line.back[..length.value]) else None
    else ReadMessage(line.back, LengthIn(line.front, length))
  }

  function LengthIn(line: seq<Byte>, length: Option<int>): Option<int> {
    if Ascii(LENGTH) <= line then Some(ReadDigits(line[|LENGTH|..], 0).value) else length
  }

  /** A header line with no line end inside it, other than the length line and the empty line. */
  predicate Ordinary(line: seq<Byte>) { NEWLINE !in line && line != [CR] && !(Ascii(LENGTH) <= line) }

  predicate FixedLine(s: string) {
    && |s| > 9 && (s[0] != 'C' || s[8] != 'L')
    && forall i :: 0 <= i < |s| ==> ' ' <= s[i] <= '~' || s[i] == '\r'
  }

  lemma FixedLinesInFront()
    ensures FixedLine(STATUS) && FixedLine(SERVER)
  {
  }

  lemma FixedTypes()
    ensures FixedLine(JSON) && FixedLine(PLAIN)
  {
  }

  lemma FixedConnections()
    ensures FixedLine(KEEP) && FixedLine(CLOSE)
  {
  }

  lemma FixedLineIsOrdinary(s: string)
    requires FixedLine(s)
    ensures Ordinary(Ascii(s))
  {
    var a := Ascii(s);
    forall i | 0 <= i < |a| ensures a[i] != NEWLINE { assert a[i] == s[i] as int; }
    assert a[0] == s[0] as int && a[8] == s[8] as int;
    assert Ascii(LENGTH)[0] == 'C' as int && Ascii(LENGTH)[8] == 'L' as int;
  }

  lemma OrdinaryIsPassed(line: seq<Byte>, rest: seq<Byte>, length: Option<int>)
    requires Ordinary(line)
    ensures ReadMessage((line + [NEWLINE]) + rest, length) == ReadMessage(rest, length)
  {
    assert (line + [NEWLINE]) + rest == line + [NEWLINE] + rest;
    CutInFront(line, NEWLINE, rest);
  }

  lemma LengthIsRead(n: nat, rest: seq<Byte>, length: Option<int>)
    ensures ReadMessage(LengthLine(n) + rest, length) == ReadMessage(rest, Some(n))
  {
    var digits := DigitsOf(n) + [CR];
    var line := Ascii(LENGTH) + digits;
    LengthLineIsPlain(n);
    CutInFront(line, NEWLINE, rest);
    assert line[|LENGTH|..] == digits;
    DigitsReadBack(n);
    ReadDigitsAppend(DigitsOf(n), [CR], 0);
    assert line[0] == 'C' as int;
  }

  lemma LengthLineIsPlain(n: nat)
    ensures NEWLINE !in Ascii(LENGTH) + (DigitsOf(n) + [CR])
  {
    assert forall i :: 0 <= i < |LENGTH| ==> LENGTH[i] != '\n' && LENGTH[i] as int < 256;
    forall i | 0 <= i < |Ascii(LENGTH)| ensures Ascii(LENGTH)[i] != NEWLINE {}
  }

  lemma BodyIsRead(body: seq<Byte>)
    ensures ReadMessage([CR] + [NEWLINE] + body, Some(|body|)) == Some(body)
  {
    CutInFront([CR], NEWLINE, body);
    EmptyLineEnds([CR] + [NEWLINE] + body, body);
  }

  lemma EmptyLineEnds(s: seq<Byte>, body: seq<Byte>)
    requires CutAt(s, NEWLINE) == Cut([CR], true, body)
    ensures ReadMessage(s, Some(|body|)) == Some(body)
  {
    assert body[..|body|] == body;
  }

  /** Any body, text or JSON, kept alive or not, is read back whole from the response by its Content-Length. */
  lemma ResponseReadsBack(body: seq<Byte>, json: bool, keepAlive: bool)
    ensures ReadMessage(MakeResponse(body, json, keepAlive), None) == Some(body)
  {
    var kind, conn := if json then JSON else PLAIN, if keepAlive then KEEP else CLOSE;
    var r5 := [CR] + [NEWLINE] + body;
    var r4 := HeaderLine(conn) + r5;
    var r3 := LengthLine(|body|) + r4;
    var r2 := HeaderLine(kind) + r3;
    var r1 := HeaderLine(SERVER) + r2;
    FixedLinesInFront();
    FixedTypes();
    FixedConnections();
    FixedLineIsOrdinary(STATUS);
    FixedLineIsOrdinary(SERVER);
    FixedLineIsOrdinary(kind);
    FixedLineIsOrdinary(conn);
    OrdinaryIsPassed(Ascii(STATUS), r1, None);
    OrdinaryIsPassed(Ascii(SERVER), r2, None);
    OrdinaryIsPassed(Ascii(kind), r3, None);
    LengthIsRead(|body|, r4, None);
    OrdinaryIsPassed(Ascii(conn), r5, Some(|body|));
    BodyIsRead(body);
  }

  // ----- The room a response needs -----

  const WRITE_BUF_SIZE: nat := 16384
  const JSON_SCRATCH: nat := 8192

  lemma LinesLength(n: nat, json: bool, keepAlive: bool)
    ensures |HeaderLine(STATUS)| == 17 && |HeaderLine(SERVER)| == 24
    ensures |HeaderLine(if json then JSON else PLAIN)| == if json then 32 else 26
    ensures |LengthLine(n)| == 18 + |DigitsOf(n)|
    ensures |HeaderLine(if keepAlive then KEEP else CLOSE)| == if keepAlive then 24 else 19
  {
  }

  /** The response fits the slot's buffer if and only if headers, digits and body do; a body that fits the
      buffer it is composed in always does. */
  lemma ResponseFits(body: seq<Byte>, json: bool, keepAlive: bool)
    ensures |MakeResponse(body, json, keepAlive)|
         == 61 + (if json then 32 else 26) + (if keepAlive then 24 else 19) + |DigitsOf(|body|)| + |body|
    ensures |body| <= JSON_SCRATCH ==> |MakeResponse(body, json, keepAlive)| <= WRITE_BUF_SIZE
    ensures |body| > WRITE_BUF_SIZE ==> |MakeResponse(body, json, keepAlive)| > WRITE_BUF_SIZE
  {
    LinesLength(|body|, json, keepAlive);
    if |body| <= JSON_SCRATCH {
      assert Pow10(2) == 100 && Pow10(4) == 100 * Pow10(2);
      DigitCount(|body|, 4);
    }
  }

  /** The response is put together in the slot's buffer, piece by piece. */
  method MakeResponseFast(buf: array<Byte>, body: seq<Byte>, json: bool, keepAlive: bool) returns (total: nat)
    requires buf.Length == WRITE_BUF_SIZE && |MakeResponse(body, json, keepAlive)| <= WRITE_BUF_SIZE
    modifies buf
    ensures total == |MakeResponse(body, json, keepAlive)| && buf[..total] == MakeResponse(body, json, keepAlive)
  {
    ghost var n := DigitsOf(|body|);
    ResponseFits(body, json, keepAlive);
    ResponsePieces(body, json, keepAlive);
    var p := Copy(buf, 0, if json then Front(JSON) else Front(PLAIN));
    assert buf[..p] == Front(if json then JSON else PLAIN);
    p := FastU64toa(buf, p, |body|);
    p := Copy(buf, p, if keepAlive then Middle(KEEP) else Middle(CLOSE));
    total := Copy(buf, p, body);
  }

  /** What stands in front of the length, and between it and the body. */
  function Front(kind: string): seq<Byte> { HeaderLine(STATUS) + HeaderLine(SERVER) + HeaderLine(kind) + Ascii(LENGTH) }

  function Middle(conn: string): seq<Byte> { [CR] + [NEWLINE] + HeaderLine(conn) + [CR] + [NEWLINE] }

  lemma ResponsePieces(body: seq<Byte>, json: bool, keepAlive: bool)
    ensures MakeResponse(body, json, keepAlive)
         == Front(if json then JSON else PLAIN) + DigitsOf(|body|) + Middle(if keepAlive then KEEP else CLOSE) + body
  {
    var kind, conn := HeaderLine(if json then JSON else PLAIN), HeaderLine(if keepAlive then KEEP else CLOSE);
    var d := DigitsOf(|body|);
    Behind(Ascii(LENGTH), d, conn, body);
    InFront(HeaderLine(STATUS), HeaderLine(SERVER), kind, Ascii(LENGTH), d + (Middle(if keepAlive then KEEP else CLOSE) + body));
    Regroup(Front(if json then JSON else PLAIN), d, Middle(if keepAlive then KEEP else CLOSE) + body);
    Regroup(Front(if json then JSON else PLAIN) + d, Middle(if keepAlive then KEEP else CLOSE), body);
  }

  lemma Behind(l: seq<Byte>, d: seq<Byte>, conn: seq<Byte>, body: seq<Byte>)
    ensures ((l + (d + [CR])) + [NEWLINE]) + (conn + ([CR] + [NEWLINE] + body))
         == l + (d + (([CR] + [NEWLINE] + conn + [CR] + [NEWLINE]) + body))
  {
  }

  lemma InFront(a: seq<Byte>, b: seq<Byte>, c: seq<Byte>, l: seq<Byte>, rest: seq<Byte>)
    ensures a + (b + (c + (l + rest))) == (a + b + c + l) + rest
  {
    Regroup(a + b + c, l, rest);
    Regroup(a + b, c, l + rest);
    Regroup(a, b, c + (l + rest));
  }

  // ----- A response cut short -----

  /** No front of s but s itself is a message. */
  ghost predicate NoneEarly(s: seq<Byte>, length: Option<int>) {
    forall n: nat :: n < |s| ==> ReadMessage(s[..n], length) == None
  }

  lemma LineIsNotEarly(line: seq<Byte>, rest: seq<Byte>, length: Option<int>)
    requires NEWLINE !in line && line != [CR] && NoneEarly(rest, LengthIn(line, length))
    ensures NoneEarly((line + [NEWLINE]) + rest, length)
  {
    var s := (line + [NEWLINE]) + rest;
    forall n: nat | n < |s| ensures ReadMessage(s[..n], length) == None {
      if n <= |line| {
        assert s[..n] == line[..n];
        CutInFront(s[..n], NEWLINE, []);
      } else {
        var m := n - |line| - 1;
        assert s[..n] == line + [NEWLINE] + rest[..m];
        CutInFront(line, NEWLINE, rest[..m]);
      }
    }
  }

  lemma BodyIsNotEarly(body: seq<Byte>)
    ensures NoneEarly([CR] + [NEWLINE] + body, Some(|body|))
  {
    var s := [CR] + [NEWLINE] + body;
    forall n: nat | n < |s| ensures ReadMessage(s[..n], Some(|body|)) == None {
      if n <= 1 {
        assert s[..n] == [CR][..n];
        CutInFront(s[..n], NEWLINE, []);
      } else {
        assert s[..n] == [CR] + [NEWLINE] + body[..n - 2];
        CutInFront([CR], NEWLINE, body[..n - 2]);
      }
    }
  }

  lemma LengthLineIsRead(n: nat, length: Option<int>)
    ensures LengthIn(Ascii(LENGTH) + (DigitsOf(n) + [CR]), length) == Some(n)
  {
    assert (Ascii(LENGTH) + (DigitsOf(n) + [CR]))[|LENGTH|..] == DigitsOf(n) + [CR];
    DigitsReadBack(n);
    ReadDigitsAppend(DigitsOf(n), [CR], 0);
  }

  lemma ResponseIsNotEarly(body: seq<Byte>, json: bool, keepAlive: bool)
    ensures NoneEarly(MakeResponse(body, json, keepAlive), None)
  {
    var kind, conn := if json then JSON else PLAIN, if keepAlive then KEEP else CLOSE;
    var n := |body|;
    var r5 := [CR] + [NEWLINE] + body;
    var r4 := HeaderLine(conn) + r5;
    var r3 := LengthLine(n) + r4;
    var r2 := HeaderLine(kind) + r3;
    var r1 := HeaderLine(SERVER) + r2;
    FixedLinesInFront();
    FixedTypes();
    FixedConnections();
    BodyIsNotEarly(body);
    FixedLineIsOrdinary(conn);
    LineIsNotEarly(Ascii(conn), r5, Some(n));
    LengthLineIsPlain(n);
    LengthLineIsRead(n, None);
    LengthStandsOut(n);
    LineIsNotEarly(Ascii(LENGTH) + (DigitsOf(n) + [CR]), r4, None);
    FixedLineIsOrdinary(kind);
    LineIsNotEarly(Ascii(kind), r3, None);
    FixedLineIsOrdinary(SERVER);
    LineIsNotEarly(Ascii(SERVER), r2, None);
    FixedLineIsOrdinary(STATUS);
    LineIsNotEarly(Ascii(STATUS), r1, None);
  }

  lemma LengthStandsOut(n: nat)
    ensures Ascii(LENGTH) + (DigitsOf(n) + [CR]) != [CR]
  {
    assert Ascii(LENGTH)[0] == 'C' as int;
  }

  // ----- What the client makes of what goes out -----

  /** While a connection sends a response, the client reads nothing until every byte is out, and then the body. */
  lemma ClientReadsWhole(s: State, i: nat, body: seq<Byte>, json: bool, keepAlive: bool, ts: seq<Turn>)
    requires Sending(s, i) && s.slots[i].buf == MakeResponse(body, json, keepAlive) && s.slots[i].offset == 0
    requires PossibleRun(s, ts) && WithinAsked(Sends(s, i, ts))
    ensures var r, sends := MakeResponse(body, json, keepAlive), Sends(s, i, ts);
            ReadMessage(Wire(sends), None)
              == if AllTook(sends) && BytesTaken(sends) == |r| then Some(body) else None
  {
    var r := MakeResponse(body, json, keepAlive);
    var wire := Wire(Sends(s, i, ts));
    DeliveredIsResponse(s, i, ts);
    if wire == r {
      ResponseReadsBack(body, json, keepAlive);
    } else {
      ResponseIsNotEarly(body, json, keepAlive);
      assert |wire| < |r| && wire == r[..|wire|];
    }
  }
}
