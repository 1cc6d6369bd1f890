/** The index of installed packages: a text that is written line by line and read by searching for keys. */
module Registry {
  import opened Basics
  import opened Texts

  datatype Package = Package(name: string, version: string)

  const NAME: string := "name"
  const VERSION: string := "version"

  // ----- Reading -----

  /** t begins with `key"`; what stands behind. */
  function AfterKey(t: Text, key: string): (r: Option<Text>)
    ensures r.Some? ==> r.value.Len() < t.Len()
    decreases |key|
  {
    if t.End? then None
    else if key == "" then if t.c == QUOTE then Some(t.rest) else None
    else if t.c == key[0] then AfterKey(t.rest, key[1..]) else None
  }

  /** What stands behind the first `"key"`. */
  function Seek(t: Text, key: string): (r: Option<Text>)
    ensures r.Some? ==> r.value.Len() < t.Len()
  {
    if t.End? then None
    else if t.c == QUOTE && AfterKey(t.rest, key).Some? then AfterKey(t.rest, key)
    else Seek(t.rest, key)
  }

  predicate IsGap(c: char) { c == ' ' || c == ':' || c == '\t' || c == '\n' || c == '\r' }

  function SkipGap(t: Text): Text { if t.Ch? && IsGap(t.c) then SkipGap(t.rest) else t }

  /** Up to the closing quote, or the end; a backslash takes the next character as it is. */
  function Unquote(t: Text): string {
    if t.End? || t.c == QUOTE then ""
    else if t.c == BACKSLASH && t.rest.Ch? then [t.rest.c] + Unquote(t.rest.rest)
    else [t.c] + Unquote(t.rest)
  }

  /** The string value behind a key. */
  function Value(t: Text): Option<string> {
    var v := SkipGap(t);
    if v.Ch? && v.c == QUOTE then Some(Unquote(v.rest)) else None
  }

  /** The value of the first key of this name from t on. */
  function GetString(t: Text, key: string): Option<string> {
    var behind := Seek(t, key);
    if behind.None? then None else Value(behind.value)
  }

  function OrEmpty(v: Option<string>): string { if v.Some? then v.value else "" }

  /** The entries of an index. The version is looked for from the entry's `"name"` on, that is, first
      from the quote that closes it. */
  function Read(t: Text): seq<Package>
    decreases t.Len()
  {
    var behind := Seek(t, NAME);
    if behind.None? || Value(behind.value).None? then [] else
    [Package(Value(behind.value).value, OrEmpty(GetString(Ch(QUOTE, behind.value), VERSION)))] + Read(behind.value)
  }

  // ----- Writing -----

  const LEAD: string := "  {"
  const COLON: string := ": "
  const COMMA: string := ", "

  function Quoted(s: string): string { [QUOTE] + (s + [QUOTE]) }

  /** One line of the index. */
  function Line(p: Package, comma: bool): string {
    LEAD + (Quoted(NAME) + (COLON + (Quoted(p.name) + (COMMA + (Quoted(VERSION) + (COLON + (Quoted(p.version) + Tail(comma))))))))
  }

  function Tail(comma: bool): string { if comma then "},\n" else "}\n" }

  /** The lines of a list, with commas here and there. */
  function Lines(ps: seq<Package>, commas: nat -> bool, k: nat): string {
    if ps == [] then "" else Line(ps[0], commas(k)) + Lines(ps[1..], commas, k + 1)
  }

  function Index(ps: seq<Package>, commas: nat -> bool): string { "[\n" + (Lines(ps, commas, 0) + "]\n") }

  /** A quoted string in front of a text. */
  function Quote(s: string, t: Text): Text { Ch(QUOTE, Before(s, Ch(QUOTE, t))) }

  lemma QuotedIsQuote(s: string, t: Text)
    ensures Before(Quoted(s), t) == Quote(s, t)
  {
    assert Quoted(s)[1..] == s + [QUOTE];
    BeforeAppend(s, [QUOTE], t);
    assert [QUOTE][1..] == "";
  }

  lemma QuotedBefore(s: string, more: string, t: Text)
    ensures Before(Quoted(s) + more, t) == Quote(s, Before(more, t))
  {
    BeforeAppend(Quoted(s), more, t);
    QuotedIsQuote(s, Before(more, t));
  }

  /** The two halves of a line. */
  function NamePart(name: string, t: Text): Text { Before(LEAD, Quote(NAME, Before(COLON, Quote(name, t)))) }

  function VersionPart(version: string, comma: bool, t: Text): Text {
    Before(COMMA, Quote(VERSION, Before(COLON, Quote(version, Before(Tail(comma), t)))))
  }

  lemma LineIsText(p: Package, comma: bool, t: Text)
    ensures Before(Line(p, comma), t) == NamePart(p.name, VersionPart(p.version, comma, t))
  {
    var l8 := Quoted(p.version) + Tail(comma);
    var l7 := COLON + l8;
    var l6 := Quoted(VERSION) + l7;
    var l5 := COMMA + l6;
    var l4 := Quoted(p.name) + l5;
    var l3 := COLON + l4;
    var l2 := Quoted(NAME) + l3;
    BeforeAppend(LEAD, l2, t);
    QuotedBefore(NAME, l3, t);
    BeforeAppend(COLON, l4, t);
    QuotedBefore(p.name, l5, t);
    BeforeAppend(COMMA, l6, t);
    QuotedBefore(VERSION, l7, t);
    BeforeAppend(COLON, l8, t);
    QuotedBefore(p.version, Tail(comma), t);
  }

  // ----- Searching in written text -----

  predicate Plain(s: string) { QUOTE !in s && BACKSLASH !in s }

  /** Text without quotes is passed over. */
  lemma {:induction false} SeekPast(s: string, t: Text, key: string)
    requires QUOTE !in s
    ensures Seek(Before(s, t), key) == Seek(t, key)
    decreases |s|
  {
    if s != "" {
      assert QUOTE !in s[1..];
      SeekPast(s[1..], t, key);
    }
  }

  /** A quoted string is the key, or it is not. */
  lemma {:induction false} KeyIsWhole(s: string, t: Text, key: string)
    requires QUOTE !in s && QUOTE !in key
    ensures AfterKey(Before(s, Ch(QUOTE, t)), key) == if s == key then Some(t) else None
    decreases |s|
  {
    if s != "" && key != "" && s[0] == key[0] {
      assert QUOTE !in s[1..] && QUOTE !in key[1..];
      KeyIsWhole(s[1..], t, key[1..]);
      assert s == [s[0]] + s[1..] && key == [key[0]] + key[1..];
    }
  }

  /** Searching comes to a quoted string: it is found, or the search goes on at its closing quote. */
  lemma SeekQuote(s: string, t: Text, key: string)
    requires QUOTE !in s && QUOTE !in key
    ensures Seek(Quote(s, t), key) == if s == key then Some(t) else Seek(Ch(QUOTE, t), key)
  {
    KeyIsWhole(s, t, key);
    SeekPast(s, Ch(QUOTE, t), key);
  }

  /** A closing quote with something behind it that is no key. */
  lemma SeekGap(c: char, s: string, t: Text, key: string)
    requires QUOTE !in s && c != QUOTE && QUOTE !in key && c !in key && key != ""
    ensures Seek(Ch(QUOTE, Before([c] + s, t)), key) == Seek(t, key)
  {
    assert ([c] + s)[1..] == s;
    assert Before([c] + s, t) == Ch(c, Before(s, t));
    SeekPast(s, t, key);
  }

  lemma {:induction false} UnquotePlain(s: string, t: Text)
    requires Plain(s)
    ensures Unquote(Before(s, Ch(QUOTE, t))) == s
    decreases |s|
  {
    if s != "" {
      assert Plain(s[1..]);
      UnquotePlain(s[1..], t);
      assert s == [s[0]] + s[1..];
    }
  }

  /** Behind a key and a colon stands its value. */
  lemma ValueIsRead(s: string, t: Text)
    requires Plain(s)
    ensures Value(Before(COLON, Quote(s, t))) == Some(s)
  {
    UnquotePlain(s, t);
    BeforeTwo(':', ' ', Quote(s, t));
    assert SkipGap(Quote(s, t)) == Quote(s, t);
    assert SkipGap(Ch(' ', Quote(s, t))) == Quote(s, t);
  }

  /** Behind anything else there is no value. */
  lemma NoValue(s: string, t: Text)
    requires s != "" && !IsGap(s[0]) && s[0] != QUOTE
    ensures Value(Before(s, t)) == None
  {
  }

  // ----- Reading one line -----

  /** The search for a key in the version part of a line. */
  lemma SeekVersionPart(version: string, comma: bool, t: Text, key: string)
    requires QUOTE !in version && (key == NAME || key == VERSION)
    ensures Seek(Ch(QUOTE, VersionPart(version, comma, t)), key)
         == if key == VERSION then Some(Before(COLON, Quote(version, Before(Tail(comma), t))))
            else if version == NAME then Some(Before(Tail(comma), t))
            else Seek(t, key)
  {
    var d := Before(Tail(comma), t);
    var c := Before(COLON, Quote(version, d));
    assert COMMA == [','] + " ";
    SeekGap(',', " ", Quote(VERSION, c), key);
    SeekQuote(VERSION, c, key);
    if key == NAME { SeekVersionValue(version, comma, t); }
  }

  lemma SeekVersionValue(version: string, comma: bool, t: Text)
    requires QUOTE !in version
    ensures var d := Before(Tail(comma), t);
            Seek(Ch(QUOTE, Before(COLON, Quote(version, d))), NAME) == if version == NAME then Some(d) else Seek(t, NAME)
  {
    var d := Before(Tail(comma), t);
    assert COLON == [':'] + " " && Tail(comma) == ['}'] + Tail(comma)[1..];
    SeekGap(':', " ", Quote(version, d), NAME);
    SeekQuote(version, d, NAME);
    SeekGap('}', Tail(comma)[1..], t, NAME);
  }

  /** Behind the `"name"` of a line: the search for the version, and for the next entry. */
  lemma SeekNamePart(name: string, vp: Text, key: string)
    requires QUOTE !in name && (key == NAME || key == VERSION)
    ensures Seek(Ch(QUOTE, Before(COLON, Quote(name, vp))), key) == if name == key then Some(vp) else Seek(Ch(QUOTE, vp), key)
    ensures Seek(Before(COLON, Quote(name, vp)), key) == if name == key then Some(vp) else Seek(Ch(QUOTE, vp), key)
  {
    assert COLON == [':'] + " ";
    SeekGap(':', " ", Quote(name, vp), key);
    SeekPast(COLON, Quote(name, vp), key);
    SeekQuote(name, vp, key);
  }

  lemma NothingToRead(s: string, t: Text)
    requires s != "" && !IsGap(s[0]) && s[0] != QUOTE
    ensures forall a :: Seek(a, NAME) == Some(Before(s, t)) ==> Read(a) == []
  {
    NoValue(s, t);
  }

  /** An entry as it is read back, and whether reading stops behind it. */
  function AsRead(p: Package): Package { if p.name == VERSION then Package(p.name, "") else p }

  predicate StopsBehind(p: Package) { p.name == NAME || p.version == NAME }

  predicate PlainEntry(p: Package) { Plain(p.name) && Plain(p.version) }

  lemma ReadLine(p: Package, comma: bool, t: Text)
    requires PlainEntry(p)
    ensures Read(Before(Line(p, comma), t)) == [AsRead(p)] + (if StopsBehind(p) then [] else Read(t))
  {
    LineIsText(p, comma, t);
    var vp := VersionPart(p.version, comma, t);
    var b := Before(COLON, Quote(p.name, vp));
    SeekPast(LEAD, Quote(NAME, b), NAME);
    SeekQuote(NAME, b, NAME);
    ValueIsRead(p.name, vp);
    ReadVersion(p, comma, t);
    ReadOn(p, comma, t);
  }

  lemma ReadVersion(p: Package, comma: bool, t: Text)
    requires PlainEntry(p)
    ensures var b := Before(COLON, Quote(p.name, VersionPart(p.version, comma, t)));
      OrEmpty(GetString(Ch(QUOTE, b), VERSION)) == AsRead(p).version
  {
    var vp, d := VersionPart(p.version, comma, t), Before(Tail(comma), t);
    SeekNamePart(p.name, vp, VERSION);
    SeekVersionPart(p.version, comma, t, VERSION);
    if p.name == VERSION { NoValue(COMMA, Quote(VERSION, Before(COLON, Quote(p.version, d)))); }
    else { ValueIsRead(p.version, d); }
  }

  lemma ReadOn(p: Package, comma: bool, t: Text)
    requires PlainEntry(p)
    ensures Read(Before(COLON, Quote(p.name, VersionPart(p.version, comma, t)))) == if StopsBehind(p) then [] else Read(t)
  {
    var vp, d := VersionPart(p.version, comma, t), Before(Tail(comma), t);
    var b := Before(COLON, Quote(p.name, vp));
    SeekNamePart(p.name, vp, NAME);
    SeekVersionPart(p.version, comma, t, NAME);
    if p.name == NAME { NothingToRead(COMMA, Quote(VERSION, Before(COLON, Quote(p.version, d)))); }
    else if p.version == NAME { NothingToRead(Tail(comma), t); }
  }

  // ----- The round trip -----

  /** What reading finds of a list. */
  function Seen(ps: seq<Package>): seq<Package> {
    if ps == [] then [] else [AsRead(ps[0])] + (if StopsBehind(ps[0]) then [] else Seen(ps[1..]))
  }

  predicate AllPlain(ps: seq<Package>) { forall p :: p in ps ==> PlainEntry(p) }

  lemma {:induction false} ReadLines(ps: seq<Package>, commas: nat -> bool, k: nat, t: Text)
    requires AllPlain(ps) && Read(t) == []
    ensures Read(Before(Lines(ps, commas, k), t)) == Seen(ps)
    decreases |ps|
  {
    if ps != [] {
      var more := Lines(ps[1..], commas, k + 1);
      BeforeAppend(Line(ps[0], commas(k)), more, t);
      ReadLine(ps[0], commas(k), Before(more, t));
      ReadLines(ps[1..], commas, k + 1, t);
    }
  }

  /** Wherever the commas stand, reading a written index finds the same. */
  lemma ReadIndex(ps: seq<Package>, commas: nat -> bool)
    requires AllPlain(ps)
    ensures Read(Open(Index(ps, commas))) == Seen(ps)
  {
    var lines := Lines(ps, commas, 0);
    BeforeAppend("[\n", lines + "]\n", End);
    BeforeAppend(lines, "]\n", End);
    SeekPast("]\n", End, NAME);
    ReadLines(ps, commas, 0, Before("]\n", End));
    SeekPast("[\n", Before(lines, Before("]\n", End)), NAME);
  }

  /** Entries that are read back as they are, with reading going on behind all but the last. */
  predicate Survives(ps: seq<Package>) {
    ps == [] || (AsRead(ps[0]) == ps[0] && (!StopsBehind(ps[0]) || |ps| == 1) && Survives(ps[1..]))
  }

  lemma {:induction false} SeenIsAll(ps: seq<Package>)
    ensures Seen(ps) == ps <==> Survives(ps)
    decreases |ps|
  {
    if ps != [] {
      SeenIsAll(ps[1..]);
      assert ps == [ps[0]] + ps[1..];
      assert Seen(ps)[0] == AsRead(ps[0]);
      assert Seen(ps)[1..] == if StopsBehind(ps[0]) then [] else Seen(ps[1..]);
    }
  }

  /** For names and versions without quotes and backslashes, reading a written index gives the list back
      exactly when no entry with a version is called `version`, and neither a name nor a version is `name`
      except in the last entry. */
  lemma ReadUndoesWrite(ps: seq<Package>, commas: nat -> bool)
    requires AllPlain(ps)
    ensures Read(Open(Index(ps, commas))) == ps <==> Survives(ps)
  {
    ReadIndex(ps, commas);
    SeenIsAll(ps);
  }

  /** An installed package called `name` hides the one behind it, and one called `version` loses its version. */
  lemma EntryBehindNameIsLost(commas: nat -> bool)
    ensures Read(Open(Index([Package("name", "1"), Package("b", "2")], commas))) == [Package("name", "1")]
    ensures Read(Open(Index([Package("version", "1")], commas))) == [Package("version", "")]
  {
    var two, one := [Package("name", "1"), Package("b", "2")], [Package("version", "1")];
    assert forall p :: p in two || p in one ==> PlainEntry(p);
    ReadIndex(two, commas);
    ReadIndex(one, commas);
    assert one[1..] == [];
  }
}
