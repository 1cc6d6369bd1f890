/** Package archives: one header line and the bytes of each file, and a closing line. */
module Archive {
  import opened Basics
  import opened Bytes

  const SPACE: Byte := 32
  const SLASH: Byte := 47
  const DOT: Byte := 46
  const PLUS: Byte := 43
  const MINUS: Byte := 45
  const NUL: Byte := 0

  const HEADER_BUFFER: nat := 1024
  const ULLONG_LIMIT: nat := 0x1_0000_0000_0000_0000

  /** `HPHX1` */
  const TRAILER: seq<Byte> := [72, 80, 72, 88, 49]

  datatype File = File(name: seq<Byte>, data: seq<Byte>)

  // ----- Packing -----

  function HeaderOf(f: File): seq<Byte> { f.name + [SPACE] + DigitsOf(|f.data|) }

  function PackFile(f: File): seq<Byte> { HeaderOf(f) + [NEWLINE] + f.data }

  function PackFiles(files: seq<File>): seq<Byte> {
    if files == [] then [] else PackFile(files[0]) + PackFiles(files[1..])
  }

  function Pack(files: seq<File>): seq<Byte> { PackFiles(files) + (TRAILER + [NEWLINE]) }

  // ----- Reading -----

  /** What a C string holds. */
  function CString(s: seq<Byte>): seq<Byte> { CutAt(s, NUL).front }

  predicate IsSpace(b: Byte) { b == SPACE || 9 <= b <= 13 }

  /** Decimal: white space, a sign, digits; too large a number is the largest, a negative one wraps. */
  function Strtoull(s: seq<Byte>): nat {
    if s != [] && IsSpace(s[0]) then Strtoull(s[1..]) else Signed(s)
  }

  function Signed(s: seq<Byte>): nat {
    var sign := if s == [] then NUL else s[0];
    var v := ReadDigits(if sign == MINUS || sign == PLUS then s[1..] else s, 0).value;
    if v < 0 then 0 else if v >= ULLONG_LIMIT then ULLONG_LIMIT - 1
    else if sign == MINUS && v > 0 then ULLONG_LIMIT - v else v
  }

  datatype Entry = Stop | Entry(name: seq<Byte>, size: nat, body: seq<Byte>)

  /** The header line s begins with. */
  function NextEntry(s: seq<Byte>): (r: Entry)
    ensures r.Entry? ==> |r.body| < |s|
  {
    var line := CutAt(s, NEWLINE);
    if !line.found || |line.front| >= HEADER_BUFFER then Stop else ParseHeader(CString(line.front), line.back)
  }

  function ParseHeader(hdr: seq<Byte>, body: seq<Byte>): (r: Entry)
    ensures r.Entry? ==> r.body == body
  {
    var field := CutAt(hdr, SPACE);
    if hdr == TRAILER || !field.found then Stop else Entry(field.front, Strtoull(field.back), body)
  }

  predicate HasDotDot(name: seq<Byte>) {
    |name| > 1 && ((name[0] == DOT && name[1] == DOT) || HasDotDot(name[1..]))
  }

  /** Absolute paths and paths upwards are not written. */
  predicate Refused(name: seq<Byte>) { (name != [] && name[0] == SLASH) || HasDotDot(name) }

  /** The files that extracting s writes, in order. */
  function Extract(s: seq<Byte>): seq<File>
    decreases |s|
  {
    match NextEntry(s)
    case Stop => []
    case Entry(name, size, body) =>
      if size > |body| then []
      else Kept(name, body[..size]) + Extract(body[size..])
  }

  function Kept(name: seq<Byte>, data: seq<Byte>): seq<File> { if Refused(name) then [] else [File(name, data)] }

  /** The names that listing s finds; a body that is cut off does not matter here. */
  function List(s: seq<Byte>): seq<seq<Byte>>
    decreases |s|
  {
    match NextEntry(s)
    case Stop => []
    case Entry(name, size, body) => [name] + List(if size > |body| then [] else body[size..])
  }

  // ----- The loops as they run; the cursor is kept as the bytes from it on -----

  method ReadHeader(rest: seq<Byte>) returns (e: Entry)
    ensures e == NextEntry(rest)
  {
    var line := CutAt(rest, NEWLINE);
    if !line.found || |line.front| >= HEADER_BUFFER { return Stop; }
    var hdr := CString(line.front);
    var field := CutAt(hdr, SPACE);
    if hdr == TRAILER || !field.found { return Stop; }
    return Entry(field.front, Strtoull(field.back), line.back);
  }

  method ExtractArchive(d: seq<Byte>) returns (written: seq<File>)
    ensures written == Extract(d)
  {
    written := [];
    var rest := d;
    while rest != []
      invariant Extract(d) == written + Extract(rest)
      decreases |rest|
    {
      var e := ReadHeader(rest);
      if e.Stop? || e.size > |e.body| { break; }
      var data, behind := e.body[..e.size], e.body[e.size..];
      Regroup(written, Kept(e.name, data), Extract(behind));
      if !Refused(e.name) { written := written + [File(e.name, data)]; }
      rest := behind;
    }
    assert written + [] == written;
  }

  /** Listing does not look whether a body is all there. */
  method ListEntries(d: seq<Byte>) returns (names: seq<seq<Byte>>)
    ensures names == List(d)
  {
    names := [];
    var rest := d;
    while rest != []
      invariant List(d) == names + List(rest)
      decreases |rest|
    {
      var e := ReadHeader(rest);
      if e.Stop? { break; }
      var behind := if e.size > |e.body| then [] else e.body[e.size..];
      Regroup(names, [e.name], List(behind));
      names := names + [e.name];
      rest := behind;
    }
    assert names + [] == names;
  }

  // ----- The round trip -----

  /** The name can stand in a header line. */
  predicate PlainName(name: seq<Byte>) { SPACE !in name && NEWLINE !in name && NUL !in name }

  /** And it is not refused. */
  predicate CleanName(name: seq<Byte>) { PlainName(name) && !Refused(name) }

  predicate Fits(f: File) { |HeaderOf(f)| < HEADER_BUFFER && |f.data| < ULLONG_LIMIT }

  lemma SizeReadsBack(n: nat)
    requires n < ULLONG_LIMIT
    ensures Strtoull(DigitsOf(n)) == n
  {
    DigitsReadBack(n);
    assert IsDigit(DigitsOf(n)[0]);
    assert Strtoull(DigitsOf(n)) == Signed(DigitsOf(n));
  }

  /** A packed header is read back, whatever stands behind it, unless it is too long for the buffer. */
  lemma HeaderReadsBack(f: File, more: seq<Byte>)
    requires PlainName(f.name) && |f.data| < ULLONG_LIMIT
    ensures NextEntry(HeaderOf(f) + [NEWLINE] + more)
         == if |HeaderOf(f)| < HEADER_BUFFER then Entry(f.name, |f.data|, more) else Stop
  {
    var h := HeaderOf(f);
    CutInFront(h, NEWLINE, more);
    CutInFront(h, NUL, []);
    HeaderParses(f, more);
  }

  lemma HeaderParses(f: File, more: seq<Byte>)
    requires PlainName(f.name) && |f.data| < ULLONG_LIMIT
    ensures ParseHeader(HeaderOf(f), more) == Entry(f.name, |f.data|, more)
  {
    CutInFront(f.name, SPACE, DigitsOf(|f.data|));
    SizeReadsBack(|f.data|);
  }

  /** The closing line ends the reading. */
  lemma TrailerStops()
    ensures NextEntry(TRAILER + [NEWLINE]) == Stop
  {
    CutInFront(TRAILER, NEWLINE, []);
    CutInFront(TRAILER, NUL, []);
    assert TRAILER + [NEWLINE] + [] == TRAILER + [NEWLINE];
    assert ParseHeader(TRAILER, []) == Stop;
  }

  predicate AllClean(files: seq<File>) { forall f :: f in files ==> CleanName(f.name) && |f.data| < ULLONG_LIMIT }

  predicate AllFit(files: seq<File>) { forall f :: f in files ==> Fits(f) }

  lemma NameIsPlain(s: seq<Byte>)
    requires NextEntry(s).Entry?
    ensures var name := NextEntry(s).name; SPACE !in name && NEWLINE !in name && NUL !in name
  {
    var line := CutAt(s, NEWLINE);
    CutIsFirst(s, NEWLINE);
    CutIsFirst(line.front, NUL);
    CutIsFirst(CString(line.front), SPACE);
  }

  /** Whatever is extracted has a clean name. */
  lemma {:induction false} ExtractedNamesAreClean(s: seq<Byte>)
    ensures forall f :: f in Extract(s) ==> CleanName(f.name)
    decreases |s|
  {
    var e := NextEntry(s);
    if e.Entry? && e.size <= |e.body| {
      ExtractedNamesAreClean(e.body[e.size..]);
      NameIsPlain(s);
    }
  }

  /** One packed file is read first. */
  lemma ExtractOne(f: File, more: seq<Byte>)
    requires PlainName(f.name) && |f.data| < ULLONG_LIMIT
    ensures Extract(PackFile(f) + more) == if Fits(f) then Kept(f.name, f.data) + Extract(more) else []
    ensures List(PackFile(f) + more) == if Fits(f) then [f.name] + List(more) else []
  {
    assert PackFile(f) + more == HeaderOf(f) + [NEWLINE] + (f.data + more);
    HeaderReadsBack(f, f.data + more);
    assert (f.data + more)[..|f.data|] == f.data && (f.data + more)[|f.data|..] == more;
  }

  lemma {:induction false} ExtractClean(files: seq<File>)
    requires AllClean(files)
    ensures Extract(Pack(files)) == files <==> AllFit(files)
    ensures AllFit(files) ==> List(Pack(files)) == Names(files)
    decreases |files|
  {
    if files == [] {
      TrailerStops();
      assert Pack(files) == TRAILER + [NEWLINE];
    } else {
      var f, rest := files[0], files[1..];
      assert Pack(files) == PackFile(f) + Pack(rest);
      assert files == [f] + rest;
      ExtractOne(f, Pack(rest));
      ExtractClean(rest);
      if Fits(f) { assert ([f] + Extract(Pack(rest)))[1..] == Extract(Pack(rest)); }
    }
  }

  function Names(files: seq<File>): seq<seq<Byte>> {
    if files == [] then [] else [files[0].name] + Names(files[1..])
  }

  /** Extracting a packed archive gives back exactly the packed files, whatever their bytes, exactly when
      every name can stand in a header line, is not refused, and fits the header buffer with its size. */
  lemma ExtractUndoesPack(files: seq<File>)
    requires forall f :: f in files ==> |f.data| < ULLONG_LIMIT
    ensures Extract(Pack(files)) == files <==> AllClean(files) && AllFit(files)
  {
    if AllClean(files) { ExtractClean(files); } else {
      ExtractedNamesAreClean(Pack(files));
    }
  }

  // ----- Refused names among others -----

  /** A name is refused if and only if it begins with a slash or has two dots in a row. */
  lemma {:induction false} RefusedIff(name: seq<Byte>)
    ensures HasDotDot(name) <==> exists k :: 0 <= k < |name| - 1 && name[k] == name[k + 1] == DOT
    ensures Refused(name) <==> (name != [] && name[0] == SLASH) || exists k :: 0 <= k < |name| - 1 && name[k] == name[k + 1] == DOT
    decreases |name|
  {
    if |name| > 1 {
      RefusedIff(name[1..]);
      if k :| 0 <= k < |name| - 1 && name[k] == name[k + 1] == DOT {
        if k > 0 { assert name[1..][k - 1] == name[1..][k] == DOT; }
      }
      if k :| 0 <= k < |name[1..]| - 1 && name[1..][k] == name[1..][k + 1] == DOT { assert name[k + 1] == name[k + 2] == DOT; }
    }
  }

  function Permitted(files: seq<File>): seq<File> {
    if files == [] then [] else (if Refused(files[0].name) then [] else [files[0]]) + Permitted(files[1..])
  }

  /** The files in front of the first whose header is too long. */
  function Fitting(files: seq<File>): seq<File> {
    if files == [] || !Fits(files[0]) then [] else [files[0]] + Fitting(files[1..])
  }

  /** Whatever names an archive holds among others: exactly the files are extracted whose names are not
      refused, and all are listed, up to the first whose header is too long for the buffer. */
  lemma {:induction false} ExtractLeavesOutRefused(files: seq<File>)
    requires forall f :: f in files ==> PlainName(f.name) && |f.data| < ULLONG_LIMIT
    ensures Extract(Pack(files)) == Permitted(Fitting(files))
    ensures List(Pack(files)) == Names(Fitting(files))
    decreases |files|
  {
    if files == [] {
      TrailerStops();
      assert Pack(files) == TRAILER + [NEWLINE];
    } else {
      var f, rest := files[0], files[1..];
      Regroup(PackFile(f), PackFiles(rest), TRAILER + [NEWLINE]);
      ExtractOne(f, Pack(rest));
      ExtractLeavesOutRefused(rest);
    }
  }

  /** How many files lie wholly within the first k bytes. */
  function Whole(files: seq<File>, k: nat): (n: nat)
    ensures n <= |files|
  {
    if files == [] || k < |PackFile(files[0])| then 0 else 1 + Whole(files[1..], k - |PackFile(files[0])|)
  }

  /** Of an archive cut off after k bytes exactly the files are extracted that are wholly there. */
  lemma {:induction false} ExtractTruncated(files: seq<File>, k: nat)
    requires AllClean(files) && AllFit(files) && k <= |Pack(files)|
    ensures Extract(Pack(files)[..k]) == files[..Whole(files, k)]
    decreases |files|, 1
  {
    if files == [] {
      assert Pack(files) == TRAILER + [NEWLINE];
      TruncatedTrailer(k);
    } else {
      var f, rest := files[0], files[1..];
      var one := PackFile(f);
      assert Pack(files) == one + Pack(rest);
      CutBehind(one, Pack(rest), k);
      if k < |one| { ExtractPart(f, k); } else { ExtractTruncatedMore(files, k - |one|); }
    }
  }

  lemma TakeMore<T>(s: seq<T>, n: nat)
    requires n < |s|
    ensures s[..1 + n] == [s[0]] + s[1..][..n]
  {
  }

  lemma {:induction false} ExtractTruncatedMore(files: seq<File>, k: nat)
    requires files != [] && AllClean(files) && AllFit(files) && k <= |Pack(files[1..])|
    ensures Extract(PackFile(files[0]) + Pack(files[1..])[..k]) == files[..1 + Whole(files[1..], k)]
    decreases |files|, 0
  {
    var n := Whole(files[1..], k);
    ExtractTruncated(files[1..], k);
    ExtractOne(files[0], Pack(files[1..])[..k]);
    TakeMore(files, n);
  }

  lemma CutBehind(a: seq<Byte>, b: seq<Byte>, k: nat)
    requires k <= |a| + |b|
    ensures (a + b)[..k] == if k < |a| then a[..k] else a + b[..k - |a|]
  {
  }

  lemma TruncatedTrailer(k: nat)
    requires k <= |TRAILER| + 1
    ensures Extract((TRAILER + [NEWLINE])[..k]) == []
  {
    if k == |TRAILER| + 1 {
      TrailerStops();
      assert (TRAILER + [NEWLINE])[..k] == TRAILER + [NEWLINE];
    } else {
      CutInFront(TRAILER[..k], NEWLINE, []);
      assert (TRAILER + [NEWLINE])[..k] == TRAILER[..k];
    }
  }

  /** A file that is cut off is not extracted. */
  lemma ExtractPart(f: File, k: nat)
    requires CleanName(f.name) && |f.data| < ULLONG_LIMIT && k < |PackFile(f)|
    ensures Extract(PackFile(f)[..k]) == []
  {
    var h, part := HeaderOf(f), PackFile(f)[..k];
    if k <= |h| {
      assert part == h[..k];
      CutInFront(part, NEWLINE, []);
    } else {
      var body := f.data[..k - |h| - 1];
      assert part == h + [NEWLINE] + body;
      HeaderReadsBack(f, body);
    }
  }
}
