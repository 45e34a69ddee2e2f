/** Strings in order, and sorting them. */
module Strings {
  // Byte by byte; a prefix comes first.
  predicate AtMost(a: string, b: string) {
    a == "" || (b != "" && (a[0] < b[0] || (a[0] == b[0] && AtMost(a[1..], b[1..]))))
  }

  lemma {:induction false} AtMostIsTotal(a: string, b: string)
    ensures AtMost(a, b) || AtMost(b, a)
  {
    if a != "" && b != "" && a[0] == b[0] {
      AtMostIsTotal(a[1..], b[1..]);
    }
  }

  lemma {:induction false} AtMostIsTransitive(a: string, b: string, c: string)
    requires AtMost(a, b) && AtMost(b, c)
    ensures AtMost(a, c)
  {
    if a != "" && a[0] == b[0] == c[0] {
      AtMostIsTransitive(a[1..], b[1..], c[1..]);
    }
  }

  predicate InOrder(s: seq<string>) {
    forall i, j :: 0 <= i < j < |s| ==> AtMost(s[i], s[j])
  }

  function Inserted(s: seq<string>, x: string): (r: seq<string>)
    ensures multiset(r) == multiset(s) + multiset{x}
  {
    if s == [] then [x]
    else
      assert s == [s[0]] + s[1..];
      if AtMost(x, s[0]) then [x] + s else [s[0]] + Inserted(s[1..], x)
  }

  lemma {:induction false} InsertedInOrder(s: seq<string>, x: string)
    requires InOrder(s)
    ensures InOrder(Inserted(s, x))
  {
    if s != [] {
      if AtMost(x, s[0]) {
        forall j | 0 <= j < |s|
          ensures AtMost(x, s[j])
        {
          if j > 0 {
            AtMostIsTransitive(x, s[0], s[j]);
          }
        }
      } else {
        AtMostIsTotal(x, s[0]);
        InsertedInOrder(s[1..], x);
        var rest := Inserted(s[1..], x);
        forall j | 0 <= j < |rest|
          ensures AtMost(s[0], rest[j])
        {
          assert rest[j] in multiset(rest);
          assert rest[j] == x || rest[j] in s[1..];
        }
      }
    }
  }

  function Sorted(s: seq<string>): (r: seq<string>)
    ensures multiset(r) == multiset(s)
  {
    if s == [] then []
    else
      assert s == [s[0]] + s[1..];
      Inserted(Sorted(s[1..]), s[0])
  }

  lemma {:induction false} SortedInOrder(s: seq<string>)
    ensures InOrder(Sorted(s))
  {
    if s != [] {
      SortedInOrder(s[1..]);
      InsertedInOrder(Sorted(s[1..]), s[0]);
    }
  }

  lemma SortedHasTheSame(s: seq<string>)
    ensures |Sorted(s)| == |s| && forall x :: x in Sorted(s) <==> x in s
  {
    assert |multiset(Sorted(s))| == |multiset(s)|;
    forall x
      ensures x in Sorted(s) <==> x in s
    {
      assert x in Sorted(s) <==> x in multiset(s);
    }
  }
}
