/** The borrow checker's table of loans. */
module Loans {
  const MAX_LOANS: nat := 64

  datatype Loan = Loan(v: nat, isMut: bool)

  /** Many readers or one writer. */
  predicate Conflict(a: Loan, b: Loan) { a.v == b.v && (a.isMut || b.isMut) }

  predicate ReadersXorWriter(loans: seq<Loan>) { forall i, j :: 0 <= i < j < |loans| ==> !Conflict(loans[i], loans[j]) }

  /** The first borrows of a run that find room in the table. */
  function Kept(run: seq<Loan>): seq<Loan> { if |run| <= MAX_LOANS then run else run[..MAX_LOANS] }

  /** Some borrow of the run conflicts with an earlier one that found room. */
  predicate Clash(run: seq<Loan>) { exists i, j :: 0 <= i < j < |run| && i < MAX_LOANS && Conflict(run[i], run[j]) }

  class Table {
    const loans: array<Loan>
    var n: nat
    ghost var run: seq<Loan>

    /** The table holds the run of borrows since the last release, as far as there is room. */
    ghost predicate Valid()
      reads this, loans
    {
      loans.Length == MAX_LOANS && n <= MAX_LOANS && loans[..n] == Kept(run)
    }

    constructor ()
      ensures Valid() && fresh(loans) && run == []
    {
      loans := new Loan[MAX_LOANS](_ => Loan(0, false));
      n, run := 0, [];
    }

    /** Is a variable borrowed, and is it borrowed for writing? */
    method LoansOf(v: nat) returns (shared: bool, written: bool)
      requires Valid()
      ensures shared <==> Loan(v, false) in Kept(run)
      ensures written <==> Loan(v, true) in Kept(run)
    {
      shared, written := false, false;
      for i := 0 to n
        invariant shared <==> Loan(v, false) in loans[..i]
        invariant written <==> Loan(v, true) in loans[..i]
      {
        if loans[i].v == v {
          if loans[i].isMut { written := true; } else { shared := true; }
        }
      }
    }

    /** One borrow: an error is reported exactly when it conflicts with one that found room. */
    method Borrow(b: Loan) returns (error: bool)
      requires Valid()
      modifies this`n, this`run, loans
      ensures Valid() && run == old(run) + [b]
      ensures error <==> exists a :: a in Kept(old(run)) && Conflict(a, b)
    {
      var shared, written := LoansOf(b.v);
      error := (b.isMut && (shared || written)) || (!b.isMut && written);
      if n < MAX_LOANS {
        loans[n] := b;
        n := n + 1;
        assert loans[..n] == old(loans[..n]) + [b];
      }
      run := run + [b];
    }

    /** The end of a block. */
    method ReleaseAll()
      requires Valid()
      modifies this`n, this`run
      ensures Valid() && run == []
    {
      n, run := 0, [];
    }
  }

  lemma ClashSnoc(run: seq<Loan>, b: Loan)
    ensures Clash(run + [b]) <==> Clash(run) || exists a :: a in Kept(run) && Conflict(a, b)
  {
    var more := run + [b];
    if Clash(more) {
      var i, j :| 0 <= i < j < |more| && i < MAX_LOANS && Conflict(more[i], more[j]);
      if j < |run| { assert Conflict(run[i], run[j]); } else { assert run[i] == Kept(run)[i]; }
    }
    if Clash(run) {
      var i, j :| 0 <= i < j < |run| && i < MAX_LOANS && Conflict(run[i], run[j]);
      assert Conflict(more[i], more[j]);
    }
    if a :| a in Kept(run) && Conflict(a, b) {
      var i :| 0 <= i < |Kept(run)| && Kept(run)[i] == a;
      assert Conflict(more[i], more[|run|]);
    }
  }

  /** Any trace of borrows and block ends: an error is reported exactly when some run between two releases
      borrows a variable twice with a writer among the two, the first of them within the table's room. */
  method CheckTrace(runs: seq<seq<Loan>>) returns (ok: bool)
    ensures ok <==> forall k :: 0 <= k < |runs| ==> !Clash(runs[k])
  {
    var t := new Table();
    ok := true;
    for k := 0 to |runs|
      invariant fresh(t) && fresh(t.loans) && t.Valid() && t.run == []
      invariant ok <==> forall m :: 0 <= m < k ==> !Clash(runs[m])
    {
      var run := runs[k];
      var clean := true;
      for i := 0 to |run|
        invariant fresh(t) && fresh(t.loans) && t.Valid() && t.run == run[..i]
        invariant clean <==> !Clash(run[..i])
      {
        assert run[..i + 1] == run[..i] + [run[i]];
        ClashSnoc(run[..i], run[i]);
        var error := t.Borrow(run[i]);
        if error { clean := false; }
      }
      assert run[..|run|] == run;
      if !clean { ok := false; }
      t.ReleaseAll();
    }
  }

  /** While a run reports no error the table holds many readers or one writer for every variable. */
  lemma CleanTable(run: seq<Loan>)
    requires !Clash(run)
    ensures ReadersXorWriter(Kept(run))
  {
    forall i, j | 0 <= i < j < |Kept(run)| ensures !Conflict(Kept(run)[i], Kept(run)[j]) {
      assert !Conflict(run[i], run[j]);
    }
  }

  /** With more borrows than the table has room for, a conflict can go unnoticed. */
  lemma FullTableForgets(run: seq<Loan>, b: Loan)
    requires |run| == MAX_LOANS && !Clash(run) && b.isMut && forall a :: a in run ==> a.v != b.v
    ensures Conflict(b, b) && !Clash(run + [b, b])
  {
    ClashSnoc(run, b);
    ClashSnoc(run + [b], b);
    assert run + [b, b] == run + [b] + [b];
    assert Kept(run + [b]) == run;
  }

  /** The rule without the limit of the table. */
  predicate Conflicting(run: seq<Loan>) { exists i, j :: 0 <= i < j < |run| && Conflict(run[i], run[j]) }

  /** The report is right for all runs of some length if and only if at most one borrow finds no room. */
  lemma RightUpToRoom(n: nat)
    ensures (forall run: seq<Loan> :: |run| == n ==> (Clash(run) <==> Conflicting(run))) <==> n <= MAX_LOANS + 1
  {
    if n <= MAX_LOANS + 1 {
      forall run: seq<Loan> | |run| == n && Conflicting(run) ensures Clash(run) {
        var i, j :| 0 <= i < j < |run| && Conflict(run[i], run[j]);
        assert i < MAX_LOANS;
      }
    } else {
      var run := seq(n, i requires 0 <= i < n => if i < MAX_LOANS then Loan(i + 1, false) else Loan(0, true));
      assert Conflict(run[MAX_LOANS], run[MAX_LOANS + 1]);
      assert |run| == n && Conflicting(run) && !Clash(run);
    }
  }
}
