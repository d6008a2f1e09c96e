/** Small facts about sequences and maps that the solver does not see on its own. */
module Collections {

  lemma Halves<T>(a: seq<T>, b: seq<T>)
    ensures (a + b)[..|a|] == a && (a + b)[|a|..] == b
  {
  }

  lemma HalvesAround<T>(a: seq<T>, x: T, b: seq<T>)
    ensures (a + [x] + b)[..|a|] == a && (a + [x] + b)[|a|] == x && (a + [x] + b)[|a| + 1..] == b
  {
  }

  lemma Cut<T>(s: seq<T>, i: nat)
    requires i < |s|
    ensures s == s[..i] + [s[i]] + s[i + 1..]
  {
  }

  /** A prefix one longer is the prefix and the next element. */
  lemma PrefixStep<T>(s: seq<T>, k: nat)
    requires k < |s|
    ensures s[..k + 1] == s[..k] + [s[k]]
    ensures s[..k + 1][..k] == s[..k] && s[..k + 1][k] == s[k] && |s[..k + 1]| == k + 1
  {
  }

  lemma SuffixStep<T>(s: seq<T>, k: nat)
    requires k < |s|
    ensures s[k..][0] == s[k] && s[k..][1..] == s[k + 1..] && |s[k..]| == |s| - k
  {
  }

  lemma Whole<T>(s: seq<T>)
    ensures s[..|s|] == s && s[0..] == s && s[..0] == [] && s[|s|..] == []
  {
  }

  lemma Assoc<T>(a: seq<T>, b: seq<T>, c: seq<T>)
    ensures a + b + c == a + (b + c)
  {
  }

  lemma Nothing<T>(a: seq<T>)
    ensures a + [] == a && [] + a == a
  {
  }

  lemma UnionAssoc<K, V>(a: map<K, V>, b: map<K, V>, c: map<K, V>)
    ensures a + b + c == a + (b + c)
  {
  }

  lemma UnionEmpty<K, V>(a: map<K, V>)
    ensures a + map[] == a && map[] + a == a
  {
  }

  lemma UpdatedWithout<K, V>(m: map<K, V>, k: K, v: V)
    ensures m[k := v] - {k} == m - {k}
  {
  }

  lemma WithoutAbsent<K, V>(m: map<K, V>, k: K)
    requires k !in m
    ensures m - {k} == m
  {
  }

  lemma FourUpdates<K, V>(m: map<K, V>, a: K, x: V, b: K, y: V, c: K, z: V, d: K, w: V)
    requires a != b && a != c && a != d && b != c && b != d && c != d
    ensures var r := m[a := x][b := y][c := z][d := w];
            && r.Keys == m.Keys + {a, b, c, d} && r[a] == x && r[b] == y && r[c] == z && r[d] == w
            && forall k :: k in r && k != a && k != b && k != c && k != d ==> k in m && r[k] == m[k]
  {
  }

  /** `xs` lists the elements of `s`, each once. */
  predicate Enumerates<T(==)>(xs: seq<T>, s: set<T>) {
    && (forall x :: x in s ==> x in xs)
    && (forall i :: 0 <= i < |xs| ==> xs[i] in s)
    && (forall i, j :: 0 <= i < j < |xs| ==> xs[i] != xs[j])
  }

  method Enumerate<T(==)>(s: set<T>) returns (xs: seq<T>)
    ensures Enumerates(xs, s)
  {
    xs := [];
    var todo := s;
    while todo != {}
      invariant todo <= s && Enumerates(xs, s - todo)
      decreases |todo|
    {
      var x :| x in todo;
      xs, todo := xs + [x], todo - {x};
    }
    assert s - todo == s;
  }

  lemma SameMap<K, V>(a: map<K, V>, b: map<K, V>)
    requires (forall k :: k in a ==> k in b && a[k] == b[k]) && (forall k :: k in b ==> k in a)
    ensures a == b
  {
  }
}
