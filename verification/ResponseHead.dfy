/** What a client reads in the head of a response: status, type of the body, and whether the connection stays. */
module ResponseHead {
  import opened Basics
  import opened Bytes
  import opened Response

  /** The lines in front of the empty line, without their line ends. */
  function Lines(s: seq<Byte>): seq<seq<Byte>>
    decreases |s|
  {
    var line := CutAt(s, NEWLINE);
    if !line.found || line.front == [CR] then [] else [WithoutCr(line.front)] + Lines(line.back)
  }

  function WithoutCr(line: seq<Byte>): seq<Byte> {
    if line != [] && line[|line| - 1] == CR then line[..|line| - 1] else line
  }

  /** The status code: three digits behind the version (section 4 of RFC 9112). */
  function StatusCode(s: seq<Byte>): Option<int> {
    var lines, front := Lines(s), Ascii("HTTP/1.1 ");
    if lines != [] && front <= lines[0] && |lines[0]| > 12 && lines[0][12] == ' ' as int
    then Some(ReadDigits(lines[0][9..12], 0).value) else None
  }

  /** The value of the first field of that name (section 5 of RFC 9112). */
  function Field(lines: seq<seq<Byte>>, name: string): Option<seq<Byte>> {
    if lines == [] then None
    else if Ascii(name + ": ") <= lines[0] then Some(lines[0][|name| + 2..])
    else Field(lines[1..], name)
  }

  /** The connection stays open after an answer that does not say close (section 9.3 of RFC 9112). */
  predicate Persists(s: seq<Byte>) { Field(Lines(s), "Connection") != Some(Ascii("close")) }

  lemma LineInFront(line: string, rest: seq<Byte>)
    requires FixedLine(line + "\r")
    ensures Lines(HeaderLine(line + "\r") + rest) == [Ascii(line)] + Lines(rest)
  {
    var a := Ascii(line + "\r");
    FixedLineIsOrdinary(line + "\r");
    CutInFront(a, NEWLINE, rest);
    assert HeaderLine(line + "\r") + rest == a + [NEWLINE] + rest;
    assert a[|a| - 1] == CR && a[..|a| - 1] == Ascii(line);
  }

  lemma StatusInFront(rest: seq<Byte>)
    ensures Lines(HeaderLine(STATUS) + rest) == [Ascii("HTTP/1.1 200 OK")] + Lines(rest)
  {
    FixedLinesInFront();
    assert STATUS == "HTTP/1.1 200 OK" + "\r";
    LineInFront("HTTP/1.1 200 OK", rest);
  }

  lemma ServerInFront(rest: seq<Byte>)
    ensures Lines(HeaderLine(SERVER) + rest) == [Ascii("Server: HolyPHP-MaxOut")] + Lines(rest)
  {
    FixedLinesInFront();
    assert SERVER == "Server: HolyPHP-MaxOut" + "\r";
    LineInFront("Server: HolyPHP-MaxOut", rest);
  }

  function TypeName(json: bool): string { if json then "application/json" else "text/plain" }

  lemma TypeInFront(json: bool, rest: seq<Byte>)
    ensures Lines(HeaderLine(if json then JSON else PLAIN) + rest) == [Ascii("Content-Type: " + TypeName(json))] + Lines(rest)
  {
    FixedTypes();
    var line := "Content-Type: " + TypeName(json);
    assert line + "\r" == if json then JSON else PLAIN;
    LineInFront(line, rest);
  }

  function ConnectionOption(keepAlive: bool): string { if keepAlive then "keep-alive" else "close" }

  lemma ConnectionInFront(keepAlive: bool, rest: seq<Byte>)
    ensures Lines(HeaderLine(if keepAlive then KEEP else CLOSE) + rest) == [Ascii("Connection: " + ConnectionOption(keepAlive))] + Lines(rest)
  {
    FixedConnections();
    var line := "Connection: " + ConnectionOption(keepAlive);
    assert line + "\r" == if keepAlive then KEEP else CLOSE;
    LineInFront(line, rest);
  }

  lemma LengthInFront(n: nat, rest: seq<Byte>)
    ensures Lines(LengthLine(n) + rest) == [Ascii(LENGTH) + DigitsOf(n)] + Lines(rest)
  {
    var line := Ascii(LENGTH) + (DigitsOf(n) + [CR]);
    LengthLineIsPlain(n);
    CutInFront(line, NEWLINE, rest);
    assert LengthLine(n) + rest == line + [NEWLINE] + rest;
    assert line[..|line| - 1] == Ascii(LENGTH) + DigitsOf(n);
  }

  lemma EmptyLineIsLast(body: seq<Byte>)
    ensures Lines([CR] + [NEWLINE] + body) == []
  {
    CutInFront([CR], NEWLINE, body);
  }

  /** The head of a response, line by line. */
  function Head(n: nat, json: bool, keepAlive: bool): seq<seq<Byte>> {
    [Ascii("HTTP/1.1 200 OK")] + ([Ascii("Server: HolyPHP-MaxOut")] + ([Ascii("Content-Type: " + TypeName(json))]
      + ([Ascii(LENGTH) + DigitsOf(n)] + [Ascii("Connection: " + ConnectionOption(keepAlive))])))
  }

  lemma HeadLines(body: seq<Byte>, json: bool, keepAlive: bool)
    ensures Lines(MakeResponse(body, json, keepAlive)) == Head(|body|, json, keepAlive)
  {
    var r5 := [CR] + [NEWLINE] + body;
    var r4 := HeaderLine(if keepAlive then KEEP else CLOSE) + r5;
    var r3 := LengthLine(|body|) + r4;
    var r2 := HeaderLine(if json then JSON else PLAIN) + r3;
    LastLines(body, keepAlive, r4);
    TypeInFront(json, r3);
    ServerInFront(r2);
    StatusInFront(HeaderLine(SERVER) + r2);
  }

  lemma LastLines(body: seq<Byte>, keepAlive: bool, r4: seq<Byte>)
    requires r4 == HeaderLine(if keepAlive then KEEP else CLOSE) + ([CR] + [NEWLINE] + body)
    ensures Lines(LengthLine(|body|) + r4)
         == [Ascii(LENGTH) + DigitsOf(|body|)] + [Ascii("Connection: " + ConnectionOption(keepAlive))]
  {
    EmptyLineIsLast(body);
    ConnectionInFront(keepAlive, [CR] + [NEWLINE] + body);
    LengthInFront(|body|, r4);
  }

  // ----- Fields -----

  lemma FieldHere(name: string, value: string, lines: seq<seq<Byte>>)
    ensures Field([Ascii(name + ": " + value)] + lines, name) == Some(Ascii(value))
  {
    var line := Ascii(name + ": " + value);
    assert line[..|name| + 2] == Ascii(name + ": ");
    assert line[|name| + 2..] == Ascii(value);
  }

  lemma FieldFurther(name: string, line: seq<Byte>, lines: seq<seq<Byte>>, k: nat)
    requires k < |name| && k < |line| && line[k] != name[k] as int % 256
    ensures Field([line] + lines, name) == Field(lines, name)
  {
    assert Ascii(name + ": ")[k] == name[k] as int % 256;
    assert ([line] + lines)[1..] == lines;
  }

  lemma StatusIsRead(lines: seq<seq<Byte>>, s: seq<Byte>)
    requires Lines(s) == [Ascii("HTTP/1.1 200 OK")] + lines
    ensures StatusCode(s) == Some(200)
  {
    var line := Ascii("HTTP/1.1 200 OK");
    assert line[..9] == Ascii("HTTP/1.1 ");
    var code: seq<Byte> := [50, 48, 48];
    assert line[9..12] == code && code[1..] == [48, 48] && code[1..][1..] == [48] && code[1..][1..][1..] == [];
    assert ReadDigits([48, 48], 2) == ReadDigits([48], 20) == ReadDigits([], 200);
  }

  lemma TypeIsRead(n: nat, json: bool, keepAlive: bool)
    ensures Field(Head(n, json, keepAlive), "Content-Type") == Some(Ascii(TypeName(json)))
  {
    var tail := [Ascii(LENGTH) + DigitsOf(n)] + [Ascii("Connection: " + ConnectionOption(keepAlive))];
    FieldHere("Content-Type", TypeName(json), tail);
    assert "Content-Type" + ": " + TypeName(json) == "Content-Type: " + TypeName(json);
    var l2 := [Ascii("Content-Type: " + TypeName(json))] + tail;
    FieldFurther("Content-Type", Ascii("Server: HolyPHP-MaxOut"), l2, 0);
    FieldFurther("Content-Type", Ascii("HTTP/1.1 200 OK"), [Ascii("Server: HolyPHP-MaxOut")] + l2, 0);
  }

  lemma ConnectionIsRead(n: nat, json: bool, keepAlive: bool)
    ensures Field(Head(n, json, keepAlive), "Connection") == Some(Ascii(ConnectionOption(keepAlive)))
  {
    var kind, length := Ascii("Content-Type: " + TypeName(json)), Ascii(LENGTH) + DigitsOf(n);
    FieldHere("Connection", ConnectionOption(keepAlive), []);
    assert "Connection" + ": " + ConnectionOption(keepAlive) == "Connection: " + ConnectionOption(keepAlive);
    var l4 := [Ascii("Connection: " + ConnectionOption(keepAlive))];
    assert l4 + [] == l4;
    FieldFurther("Connection", length, l4, 3);
    FieldFurther("Connection", kind, [length] + l4, 3);
    FieldFurther("Connection", Ascii("Server: HolyPHP-MaxOut"), [kind] + ([length] + l4), 0);
    FieldFurther("Connection", Ascii("HTTP/1.1 200 OK"), [Ascii("Server: HolyPHP-MaxOut")] + ([kind] + ([length] + l4)), 0);
  }

  /** A client reads status 200, the type the body was said to have, and that the connection stays if and
      only if it is kept alive. */
  lemma ClientReadsHead(body: seq<Byte>, json: bool, keepAlive: bool)
    ensures var r := MakeResponse(body, json, keepAlive);
            && StatusCode(r) == Some(200)
            && Field(Lines(r), "Content-Type") == Some(Ascii(if json then "application/json" else "text/plain"))
            && (Persists(r) <==> keepAlive)
  {
    var r := MakeResponse(body, json, keepAlive);
    HeadLines(body, json, keepAlive);
    StatusIsRead(Lines(r)[1..], r);
    TypeIsRead(|body|, json, keepAlive);
    ConnectionIsRead(|body|, json, keepAlive);
    OptionsDiffer();
  }

  lemma OptionsDiffer()
    ensures Ascii("keep-alive") != Ascii("close")
  {
    assert |Ascii("keep-alive")| == 10 && |Ascii("close")| == 5;
  }
}
