/** Small facts about finite maps that the proofs about tables use. */
module Maps {

  function Constant<K, V>(keys: set<K>, v: V): map<K, V> {
    map k | k in keys :: v
  }

  lemma PutThenUnion<K, V>(m: map<K, V>, n: map<K, V>, k: K, v: V)
    requires k !in n
    ensures m[k := v] + n == m + n[k := v]
  {
  }

  lemma {:induction false} PutThenConstant<K, V>(m: map<K, V>, keys: set<K>, k: K, v: V)
    ensures m[k := v] + Constant(keys, v) == m + Constant({k} + keys, v)
  {
  }

  lemma UnionAssociative<K, V>(a: map<K, V>, b: map<K, V>, c: map<K, V>)
    ensures (a + b) + c == a + (b + c)
  {
  }

  /** Updates of disjoint parts of a map can be exchanged. */
  lemma PutBeside<K, V>(m: map<K, V>, n: map<K, V>, k: K, v: V)
    requires k !in n
    ensures (m + n)[k := v] == m[k := v] + n
  {
  }

  lemma PutInside<K, V>(m: map<K, V>, n: map<K, V>, k: K, v: V)
    ensures (m + n)[k := v] == m + n[k := v]
  {
  }

  lemma RemoveTwice<K, V>(m: map<K, V>, a: set<K>, b: set<K>)
    ensures m - a - b == m - (a + b)
  {
  }

  lemma UnionEmpty<K, V>(m: map<K, V>)
    ensures m + map[] == m
  {
  }

  lemma PutSame<K, V>(m: map<K, V>, k: K)
    requires k in m
    ensures m[k := m[k]] == m
  {
  }

  /** A pending entry of a part of a map is completed, and another entry is changed beside it. */
  lemma Complete<K, V>(base: map<K, V>, a: map<K, V>, f: map<K, V>, id: K, blank: V, rec: V, pid: K, r: V)
    requires pid in base && pid !in a && pid !in f && id !in f && id != pid
    ensures (base + (a[id := blank] + f))[id := rec][pid := r] == (base[pid := r] + a[id := rec]) + f
  {
  }

  lemma Overwrite<K, V>(base: map<K, V>, one: map<K, V>, rest: map<K, V>, pid: K, r: V, r': V)
    requires pid !in one
    ensures (base[pid := r] + one)[pid := r'] + rest == base[pid := r'] + (one + rest)
  {
  }

  /** One of several blank entries is filled in, together with entries below it. */
  lemma FillOne<K, V>(base: map<K, V>, blanks: map<K, V>, below: map<K, V>, id: K, blank: V, rec: V)
    requires id !in blanks && id !in below && blanks.Keys !! below.Keys
    ensures (base + blanks[id := blank])[id := rec] + below == (base + below[id := rec]) + blanks
  {
  }

  lemma AddRemove<K, V>(m: map<K, V>, keys: set<K>, v: V)
    requires m.Keys !! keys
    ensures m + Constant(keys, v) - keys == m
  {
  }

  lemma PutTwice<K, V>(m: map<K, V>, k: K, v: V, w: V)
    ensures m[k := v][k := w] == m[k := w]
  {
  }

  lemma {:induction false} PutRemove<K, V>(m: map<K, V>, k: K, v: V)
    requires k !in m
    ensures m[k := v] - {k} == m
  {
  }

  /** One part of a map goes away and an entry of the rest changes. */
  lemma DropPart<K, V>(base: map<K, V>, one: map<K, V>, rest: map<K, V>, k: K, v: V)
    requires base.Keys !! one.Keys && one.Keys !! rest.Keys && k !in rest
    ensures (base + (one + rest) - one.Keys)[k := v] == base[k := v] + rest
  {
  }

  lemma UnionSwap<K, V>(a: map<K, V>, b: map<K, V>, c: map<K, V>)
    requires b.Keys !! c.Keys
    ensures (a + b) + c == (a + c) + b
  {
  }

  /** A part is moved over the others, beside an entry that changes. */
  lemma CarryPart<K, V>(base: map<K, V>, one: map<K, V>, more: map<K, V>, rest: map<K, V>, k: K, v: V)
    requires k !in one && one.Keys !! more.Keys
    ensures ((base + one)[k := v] + more) + rest == (base[k := v] + more) + (one + rest)
  {
  }

  lemma AddPart<K, V>(base: map<K, V>, one: map<K, V>, more: map<K, V>, k: K, v: V)
    requires k !in one
    ensures (base + one)[k := v] + more == base[k := v] + (one + more)
  {
  }

  lemma EmptyUnion<K, V>(m: map<K, V>)
    ensures map[] + m == m
  {
  }

  lemma Covered<K, V>(a: map<K, V>, b: map<K, V>, c: map<K, V>)
    requires a.Keys <= b.Keys + c.Keys
    ensures a + b + c == b + c
  {
  }

  lemma UnionRotate<K, V>(a: map<K, V>, b: map<K, V>, c: map<K, V>)
    requires a.Keys !! b.Keys
    ensures a + (b + c) == b + (a + c)
  {
  }

  lemma PutMiddle<K, V>(a: map<K, V>, b: map<K, V>, c: map<K, V>, k: K, v: V)
    requires k !in c
    ensures (a + (b + c))[k := v] == (a + b[k := v]) + c
  {
  }

  lemma PutOutside<K, V>(base: map<K, V>, a: map<K, V>, b: map<K, V>, k: K, v: V)
    requires k !in b
    ensures base + (a + b)[k := v] == (base + a)[k := v] + b
  {
  }

  lemma PutLast<K, V>(m: map<K, V>, a: map<K, V>, b: map<K, V>, k: K, u: V, v: V, w: V)
    requires k !in a && k !in b
    ensures ((m[k := u][k := v] + a) + b)[k := w] == (m[k := w] + a) + b
    ensures ((m[k := u][k := v] + a) + b)[k] == v
  {
  }

  lemma UnionCommutes<K, V>(a: map<K, V>, b: map<K, V>)
    requires a.Keys !! b.Keys
    ensures a + b == b + a
  {
  }

  lemma ConstantUnion<K, V>(m: map<K, V>, a: set<K>, b: set<K>, v: V)
    ensures (m + Constant(a, v)) + Constant(b, v) == m + Constant(a + b, v)
  {
  }
}
