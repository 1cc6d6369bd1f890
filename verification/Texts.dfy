/** Texts as they are read: one character after the other. */
module Texts {
  const QUOTE: char := '"'
  const BACKSLASH: char := '\\'

  /** What is left of a text. */
  datatype Text = End | Ch(c: char, rest: Text) {
    function Len(): nat { if End? then 0 else 1 + rest.Len() }

    function Next(): (r: Text)
      ensures r.Len() <= Len() && (Ch? ==> r.Len() < Len())
    {
      if End? then End else rest
    }
  }

  /** A string in front of a text. */
  function Before(s: string, t: Text): Text { if s == "" then t else Ch(s[0], Before(s[1..], t)) }

  /** A whole file. */
  function Open(file: string): Text { Before(file, End) }

  lemma {:induction false} BeforeAppend(a: string, b: string, t: Text)
    ensures Before(a + b, t) == Before(a, Before(b, t))
    decreases |a|
  {
    if a == "" { assert "" + b == b; } else {
      assert (a + b)[1..] == a[1..] + b;
      BeforeAppend(a[1..], b, t);
    }
  }

  lemma BeforeTwo(a: char, b: char, t: Text)
    ensures Before([a, b], t) == Ch(a, Ch(b, t))
  {
    assert [a, b][1..] == [b] && [b][1..] == "";
    assert Before([b], t) == Ch(b, t);
  }
}
