/** Entry names and their order: the byte-wise comparison that the scanner sorts and merges by. */
module Names {

  /** strcmp: negative, zero or positive as `a` comes before, equals or comes after `b`. */
  function Compare(a: string, b: string): int
    decreases |a|
  {
    if a == [] && b == [] then 0
    else if a == [] then -1
    else if b == [] then 1
    else if a[0] < b[0] then -1
    else if b[0] < a[0] then 1
    else Compare(a[1..], b[1..])
  }

  predicate Less(a: string, b: string) {
    Compare(a, b) < 0
  }

  /** Said without the comparison: at the first difference the smaller character comes first, and a name
      comes before those that it is the beginning of. */
  ghost predicate Earlier(a: string, b: string) {
    exists k :: EarlierAt(a, b, k)
  }

  ghost predicate EarlierAt(a: string, b: string, k: int) {
    && 0 <= k <= |a| && k <= |b| && a[..k] == b[..k]
    && (k == |a| < |b| || (k < |a| && k < |b| && a[k] < b[k]))
  }

  lemma {:induction false} FirstSame(a: string, b: string, k: int)
    requires EarlierAt(a, b, k)
    ensures k > 0 ==> a != [] && b != [] && a[0] == b[0]
    ensures k == 0 ==> b != [] && (a == [] || a[0] < b[0])
  {
    if k > 0 {
      assert a[..k][0] == a[0] && b[..k][0] == b[0];
    }
  }

  /** The scanner's order is that of the characters. */
  lemma {:induction false} LessIsEarlier(a: string, b: string)
    ensures Less(a, b) <==> Earlier(a, b)
    decreases |a|
  {
    if a == [] || b == [] || a[0] != b[0] {
      if Less(a, b) {
        assert EarlierAt(a, b, 0);
      }
      if Earlier(a, b) {
        var k :| EarlierAt(a, b, k);
        FirstSame(a, b, k);
      }
    } else {
      LessIsEarlier(a[1..], b[1..]);
      if Less(a, b) {
        var k :| EarlierAt(a[1..], b[1..], k);
        assert a[..k + 1] == [a[0]] + a[1..][..k] && b[..k + 1] == [b[0]] + b[1..][..k];
        assert EarlierAt(a, b, k + 1);
      }
      if Earlier(a, b) {
        var k :| EarlierAt(a, b, k);
        FirstSame(a, b, k);
        assert a[1..][..k - 1] == a[..k][1..] && b[1..][..k - 1] == b[..k][1..];
        assert EarlierAt(a[1..], b[1..], k - 1);
      }
    }
  }

  lemma {:induction false} CompareZero(a: string, b: string)
    ensures Compare(a, b) == 0 <==> a == b
    decreases |a|
  {
    if a != [] && b != [] {
      CompareZero(a[1..], b[1..]);
      assert a == [a[0]] + a[1..] && b == [b[0]] + b[1..];
    }
  }

  lemma {:induction false} CompareFlip(a: string, b: string)
    ensures Compare(a, b) == -Compare(b, a)
    decreases |a|
  {
    if a != [] && b != [] {
      CompareFlip(a[1..], b[1..]);
    }
  }

  lemma {:induction false} LessTransitive(a: string, b: string, c: string)
    requires Less(a, b) && Less(b, c)
    ensures Less(a, c)
    decreases |a|
  {
    if a != [] && b != [] && c != [] && a[0] == b[0] == c[0] {
      LessTransitive(a[1..], b[1..], c[1..]);
    }
  }

  /** Exactly one of the three outcomes of a comparison holds. */
  lemma {:induction false} Trichotomy(a: string, b: string)
    ensures Less(a, b) || a == b || Less(b, a)
    ensures !(Less(a, b) && Less(b, a))
    ensures Less(a, b) ==> a != b
  {
    CompareZero(a, b);
    CompareFlip(a, b);
  }

  /** Strictly increasing in the order above: sorted, and without duplicates. */
  ghost predicate Sorted(names: seq<string>) {
    forall i, j :: 0 <= i < j < |names| ==> Less(names[i], names[j])
  }

  /** A name that can stand in a path and on a line of output. */
  predicate GoodName(name: string) {
    name != [] && '/' !in name && '\n' !in name
  }

  /** The text of a path: its components joined by slashes; the root of a share is the empty text. */
  function Join(path: seq<string>): string {
    if path == [] then ""
    else if |path| == 1 then path[0]
    else Join(path[..|path| - 1]) + "/" + path[|path| - 1]
  }

  ghost predicate GoodPath(path: seq<string>) {
    forall name :: name in path ==> GoodName(name)
  }

  lemma {:induction false} LastSlash(a: string, x: string)
    requires '/' !in x
    ensures var s := a + "/" + x; s[|a|] == '/' && forall k :: |a| < k < |s| ==> s[k] != '/'
  {
    var s := a + "/" + x;
    forall k | |a| < k < |s|
      ensures s[k] != '/'
    {
      assert s[k] == x[k - |a| - 1];
    }
  }

  lemma {:induction false} SlashSplit(a: string, x: string, b: string, y: string)
    requires '/' !in x && '/' !in y
    requires a + "/" + x == b + "/" + y
    ensures a == b && x == y
  {
    var s := a + "/" + x;
    LastSlash(a, x);
    LastSlash(b, y);
    assert |a| == |b|;
    assert a == s[..|a|] && b == s[..|a|];
    assert x == s[|a| + 1..] && y == s[|a| + 1..];
  }

  lemma {:induction false} JoinShape(p: seq<string>)
    requires GoodPath(p)
    ensures '/' in Join(p) <==> |p| >= 2
    ensures Join(p) == "" <==> p == []
  {
    if |p| == 1 {
      assert p[0] in p;
    } else if |p| >= 2 {
      assert Join(p)[|Join(p[..|p| - 1])|] == '/';
    }
  }

  /** Two directories of a share never print the same path: UNIQUE (tree_id, path) on text is
      uniqueness of the component list. */
  lemma {:induction false} JoinInjective(p: seq<string>, q: seq<string>)
    requires GoodPath(p) && GoodPath(q)
    requires Join(p) == Join(q)
    ensures p == q
    decreases |p|
  {
    JoinShape(p);
    JoinShape(q);
    if |p| >= 2 {
      var m, n := |p| - 1, |q| - 1;
      assert p[m] in p && q[n] in q;
      SlashSplit(Join(p[..m]), p[m], Join(q[..n]), q[n]);
      JoinInjective(p[..m], q[..n]);
      assert p == p[..m] + [p[m]] && q == q[..n] + [q[n]];
    }
  }
}
