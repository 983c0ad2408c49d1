/** Facts about numbers, sets and sequences that several modules need. */
module Basics {

  lemma MulMonotone(a: nat, b: nat, d: nat)
    requires a <= b
    ensures d * a <= d * b && a * d <= b * d
  {
  }

  lemma SubsetSize<T>(a: set<T>, b: set<T>)
    requires a <= b
    ensures |a| <= |b|
  {
    assert b == a + (b - a);
  }

  lemma {:induction false} SomeOf<T>(a: set<T>) returns (x: T)
    requires a != {}
    ensures x in a
  {
    x :| x in a;
  }

  lemma Regroup<T>(a: seq<T>, b: seq<T>, c: seq<T>)
    ensures (a + b) + c == a + (b + c)
  {
  }

  lemma RegroupAll<T>(h: seq<T>, a: seq<T>, b: seq<T>, c: seq<T>, d: seq<T>)
    ensures h + ((a + b + c) + d) == (h + a) + (b + (c + d))
  {
  }

  lemma RegroupPatch<T>(h: seq<T>, o: seq<T>, f: seq<T>, s: seq<T>, t: seq<T>)
    ensures h + o + f + s + t == (h + (o + f)) + (s + t)
  {
  }

  lemma SnocEqual<T>(a: seq<T>, x: T, b: seq<T>, y: T)
    requires |a| == |b|
    ensures a + [x] == b + [y] <==> a == b && x == y
  {
    assert a + [x] == b + [y] ==> (a + [x])[..|a|] == (b + [y])[..|b|] && (a + [x])[|a|] == (b + [y])[|b|];
  }
}
