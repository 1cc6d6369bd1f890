/** Adding and removing packages: the index behaves as an ordered finite map. */
module RegistryOps {
  import opened Basics
  import opened Texts
  import opened Registry

  // ----- What the operations do to the list -----

  /** Every entry of that name gets the version; without one, the package comes last. */
  function Upsert(ps: seq<Package>, p: Package): seq<Package> {
    if Has(ps, p.name) then Upgraded(ps, p) else ps + [p]
  }

  predicate Has(ps: seq<Package>, name: string) { ps != [] && (ps[0].name == name || Has(ps[1..], name)) }

  function Upgraded(ps: seq<Package>, p: Package): seq<Package> {
    if ps == [] then [] else [if ps[0].name == p.name then p else ps[0]] + Upgraded(ps[1..], p)
  }

  function Without(ps: seq<Package>, name: string): seq<Package> {
    if ps == [] then [] else (if ps[0].name == name then [] else [ps[0]]) + Without(ps[1..], name)
  }

  // ----- Where the commas stand -----

  /** The lines of the old list are written as if it were the whole list, the appended one has a comma
      unless it is alone. */
  function AddComma(n: nat): nat -> bool { k => if k < n then k + 1 < n else n > 0 }

  /** The commas of a shortened list count against the length of the old one. */
  function RemoveComma(n: nat): nat -> bool { k => k + 1 < n }

  lemma {:induction false} LinesSnoc(ps: seq<Package>, p: Package, commas: nat -> bool, k: nat)
    ensures Lines(ps + [p], commas, k) == Lines(ps, commas, k) + Line(p, commas(k + |ps|))
    decreases |ps|
  {
    if ps == [] {
      assert ps + [p] == [p] && [p][1..] == [];
    } else {
      assert (ps + [p])[1..] == ps[1..] + [p];
      LinesSnoc(ps[1..], p, commas, k + 1);
    }
  }

  // ----- The operations as they run -----

  method RegistryRead(file: string) returns (v: seq<Package>)
    ensures v == Read(Open(file))
  {
    v := [];
    var p := Seek(Open(file), NAME);
    while p.Some?
      invariant Read(Open(file)) == v + Found(p)
      decreases if p.Some? then p.value.Len() + 1 else 0
    {
      var name := Value(p.value);
      var version := GetString(Ch(QUOTE, p.value), VERSION);
      if name.None? { break; }
      var next := Seek(p.value, NAME);
      Regroup(v, [Package(name.value, OrEmpty(version))], Found(next));
      v := v + [Package(name.value, OrEmpty(version))];
      p := next;
    }
    assert v + [] == v;
  }

  /** What is still found from a `"name"` on. */
  function Found(p: Option<Text>): seq<Package> {
    if p.None? || Value(p.value).None? then []
    else [Package(Value(p.value).value, OrEmpty(GetString(Ch(QUOTE, p.value), VERSION)))] + Read(p.value)
  }

  method RegistryAdd(file: string, p: Package) returns (out: string)
    ensures exists commas :: out == Index(Upsert(Read(Open(file)), p), commas)
  {
    var v := RegistryRead(file);
    var n := |v|;
    var lines := "";
    var replaced := false;
    ghost var commas := AddComma(n);
    ghost var done: seq<Package> := [];
    var i, rest := 0, v;
    while rest != []
      invariant i + |rest| == n && |done| == i && lines == Lines(done, commas, 0)
      invariant Upgraded(v, p) == done + Upgraded(rest, p)
      invariant Has(v, p.name) == (replaced || Has(rest, p.name))
      decreases |rest|
    {
      var e := rest[0];
      if e.name == p.name {
        e := p;
        replaced := true;
      }
      LinesSnoc(done, e, commas, 0);
      lines := lines + Line(e, i + 1 < n);
      rest := rest[1..];
      Regroup(done, [e], Upgraded(rest, p));
      done := done + [e];
      i := i + 1;
    }
    assert done + [] == done;
    if !replaced {
      NothingUpgraded(v, p);
      LinesSnoc(done, p, commas, 0);
      lines := lines + Line(p, n > 0);
    }
    out := "[\n" + (lines + "]\n");
    assert out == Index(Upsert(v, p), commas);
  }

  lemma {:induction false} NothingUpgraded(ps: seq<Package>, p: Package)
    requires !Has(ps, p.name)
    ensures Upgraded(ps, p) == ps
    decreases |ps|
  {
    if ps != [] {
      NothingUpgraded(ps[1..], p);
      assert ps == [ps[0]] + ps[1..];
    }
  }

  method RegistryRemove(file: string, name: string) returns (out: string)
    ensures exists commas :: out == Index(Without(Read(Open(file)), name), commas)
  {
    var v := RegistryRead(file);
    var n := |v|;
    var lines := "";
    var kept := 0;
    ghost var commas := RemoveComma(n);
    ghost var done: seq<Package> := [];
    var rest := v;
    while rest != []
      invariant |done| == kept && lines == Lines(done, commas, 0)
      invariant Without(v, name) == done + Without(rest, name)
      decreases |rest|
    {
      var e := rest[0];
      rest := rest[1..];
      Regroup(done, if e.name == name then [] else [e], Without(rest, name));
      if e.name != name {
        LinesSnoc(done, e, commas, 0);
        lines := lines + Line(e, kept + 1 < n);
        done := done + [e];
        kept := kept + 1;
      }
    }
    assert done + [] == done;
    out := "[\n" + (lines + "]\n");
    assert out == Index(Without(v, name), commas);
  }

  method IsInstalled(file: string, name: string) returns (found: bool)
    ensures found == Has(Read(Open(file)), name)
  {
    var rest := RegistryRead(file);
    while rest != []
      invariant Has(Read(Open(file)), name) == Has(rest, name)
      decreases |rest|
    {
      if rest[0].name == name { return true; }
      rest := rest[1..];
    }
    return false;
  }

  // ----- The map -----

  /** The version a list records for a name. */
  function Lookup(ps: seq<Package>, name: string): Option<string> {
    if ps == [] then None else if ps[0].name == name then Some(ps[0].version) else Lookup(ps[1..], name)
  }

  predicate Distinct(ps: seq<Package>) { ps == [] || (!Has(ps[1..], ps[0].name) && Distinct(ps[1..])) }

  /** The names of a list, in order. */
  function Names(ps: seq<Package>): seq<string> { if ps == [] then [] else [ps[0].name] + Names(ps[1..]) }

  lemma {:induction false} HasIsLookup(ps: seq<Package>, name: string)
    ensures Has(ps, name) <==> Lookup(ps, name).Some?
    decreases |ps|
  {
    if ps != [] { HasIsLookup(ps[1..], name); }
  }

  lemma {:induction false} UpgradeIsUpdate(ps: seq<Package>, p: Package, name: string)
    ensures Lookup(Upgraded(ps, p), name) == if name == p.name && Has(ps, name) then Some(p.version) else Lookup(ps, name)
    ensures Names(Upgraded(ps, p)) == Names(ps) && Has(Upgraded(ps, p), name) == Has(ps, name)
    ensures Distinct(ps) ==> Distinct(Upgraded(ps, p))
    decreases |ps|
  {
    if ps != [] {
      var more := Upgraded(ps[1..], p);
      assert Upgraded(ps, p)[1..] == more;
      UpgradeIsUpdate(ps[1..], p, name);
      UpgradeIsUpdate(ps[1..], p, ps[0].name);
    }
  }

  lemma {:induction false} AppendIsUpdate(ps: seq<Package>, p: Package, name: string)
    requires !Has(ps, p.name)
    ensures Lookup(ps + [p], name) == if name == p.name then Some(p.version) else Lookup(ps, name)
    ensures Names(ps + [p]) == Names(ps) + [p.name] && Has(ps + [p], name) == (Has(ps, name) || name == p.name)
    ensures Distinct(ps) ==> Distinct(ps + [p])
    decreases |ps|
  {
    if ps == [] {
      assert ps + [p] == [p] && [p][1..] == [];
    } else {
      assert (ps + [p])[1..] == ps[1..] + [p];
      AppendIsUpdate(ps[1..], p, name);
      AppendIsUpdate(ps[1..], p, ps[0].name);
      assert [ps[0].name] + (Names(ps[1..]) + [p.name]) == ([ps[0].name] + Names(ps[1..])) + [p.name];
    }
  }

  /** Adding sets one name and no other, keeps the order, and puts a new name last. */
  lemma AddIsUpdate(ps: seq<Package>, p: Package, name: string)
    requires Distinct(ps)
    ensures Distinct(Upsert(ps, p))
    ensures Lookup(Upsert(ps, p), name) == if name == p.name then Some(p.version) else Lookup(ps, name)
    ensures Names(Upsert(ps, p)) == if Has(ps, p.name) then Names(ps) else Names(ps) + [p.name]
  {
    if Has(ps, p.name) { UpgradeIsUpdate(ps, p, name); } else { AppendIsUpdate(ps, p, name); }
  }

  /** Removing takes one name out and no other. */
  lemma {:induction false} RemoveIsDelete(ps: seq<Package>, gone: string, name: string)
    ensures Lookup(Without(ps, gone), name) == if name == gone then None else Lookup(ps, name)
    ensures Has(Without(ps, gone), name) ==> Has(ps, name)
    ensures Distinct(ps) ==> Distinct(Without(ps, gone))
    decreases |ps|
  {
    if ps != [] {
      var more := Without(ps[1..], gone);
      RemoveIsDelete(ps[1..], gone, name);
      RemoveIsDelete(ps[1..], gone, ps[0].name);
      if ps[0].name != gone { assert ([ps[0]] + more)[1..] == more; } else { assert [] + more == more; }
    }
  }

  // ----- Any sequence of operations -----

  datatype Op = Add(p: Package) | Remove(name: string)

  function Apply(ps: seq<Package>, op: Op): seq<Package> {
    match op
    case Add(p) => Upsert(ps, p)
    case Remove(n) => Without(ps, n)
  }

  /** The list a sequence of operations leaves. */
  function ListAfter(ops: seq<Op>): seq<Package> {
    if ops == [] then [] else Apply(ListAfter(ops[..|ops| - 1]), ops[|ops| - 1])
  }

  /** Packages whose entries are read back wherever they stand. */
  predicate Storable(p: Package) { PlainEntry(p) && AsRead(p) == p && !StopsBehind(p) }

  predicate AllStorable(ps: seq<Package>) { forall p :: p in ps ==> Storable(p) }

  predicate AllowedOps(ops: seq<Op>) { forall op :: op in ops && op.Add? ==> Storable(op.p) }

  lemma {:induction false} ApplyStorable(ps: seq<Package>, op: Op)
    requires AllStorable(ps) && (op.Add? ==> Storable(op.p))
    ensures AllStorable(Apply(ps, op))
  {
    match op
    case Add(p) => UpgradedElements(ps, p);
    case Remove(n) => WithoutElements(ps, n);
  }

  lemma {:induction false} UpgradedElements(ps: seq<Package>, p: Package)
    ensures forall x :: x in Upgraded(ps, p) ==> x == p || x in ps
    decreases |ps|
  {
    if ps != [] { UpgradedElements(ps[1..], p); }
  }

  lemma {:induction false} WithoutElements(ps: seq<Package>, n: string)
    ensures forall x :: x in Without(ps, n) ==> x in ps
    decreases |ps|
  {
    if ps != [] { WithoutElements(ps[1..], n); }
  }

  lemma {:induction false} StorableSurvives(ps: seq<Package>)
    requires AllStorable(ps)
    ensures Survives(ps)
    decreases |ps|
  {
    if ps != [] {
      assert Storable(ps[0]);
      StorableSurvives(ps[1..]);
    }
  }

  /** A file an index has been written to by the operations so far. */
  ghost predicate Holds(file: string, ps: seq<Package>) {
    (file == "[]" && ps == []) || exists commas :: file == Index(ps, commas)
  }

  /** Whatever is added and removed, the file holds the list; what is read from it is exactly that list,
      with every name once. */
  lemma {:induction false} EveryRunIsAMap(ops: seq<Op>, file: string)
    requires AllowedOps(ops) && Holds(file, ListAfter(ops))
    ensures Read(Open(file)) == ListAfter(ops) && Distinct(ListAfter(ops)) && AllStorable(ListAfter(ops))
    decreases |ops|
  {
    ListIsGood(ops);
    var ps := ListAfter(ops);
    if commas :| file == Index(ps, commas) {
      StorableSurvives(ps);
      ReadUndoesWrite(ps, commas);
    } else {
      SeekPast("[]", End, NAME);
    }
  }

  lemma {:induction false} ListIsGood(ops: seq<Op>)
    requires AllowedOps(ops)
    ensures Distinct(ListAfter(ops)) && AllStorable(ListAfter(ops))
    decreases |ops|
  {
    if ops != [] {
      var front, op := ops[..|ops| - 1], ops[|ops| - 1];
      ListIsGood(front);
      ApplyStorable(ListAfter(front), op);
      match op
      case Add(p) => AddIsUpdate(ListAfter(front), p, p.name);
      case Remove(n) => RemoveIsDelete(ListAfter(front), n, n);
    }
  }

  /** From no index at all, through any operations, one file after the other. */
  method RunAll(ops: seq<Op>) returns (file: string)
    requires AllowedOps(ops)
    ensures Read(Open(file)) == ListAfter(ops) && Distinct(ListAfter(ops))
  {
    file := "[]";
    for i := 0 to |ops|
      invariant Holds(file, ListAfter(ops[..i]))
    {
      EveryRunIsAMap(ops[..i], file);
      assert ops[..i + 1][..i] == ops[..i];
      match ops[i] {
        case Add(p) => file := RegistryAdd(file, p);
        case Remove(name) => file := RegistryRemove(file, name);
      }
    }
    assert ops[..|ops|] == ops;
    EveryRunIsAMap(ops, file);
  }
}
