/** The string operations that the workers take from Go's standard library:
    substring search, replacement of the first match, and splitting on '/'. */
module Text {
  import opened Collections

  /** `sub` stands in `s` at index `i`. */
  predicate OccursAt(s: string, sub: string, i: int) {
    0 <= i && i + |sub| <= |s| && s[i..i + |sub|] == sub
  }

  /** The first index at or after `from` where `sub` occurs, or -1. */
  function IndexFrom(s: string, sub: string, from: nat): (i: int)
    ensures i == -1 || (from <= i && OccursAt(s, sub, i))
    ensures forall j :: from <= j && OccursAt(s, sub, j) ==> 0 <= i <= j
    decreases |s| - from
  {
    if from + |sub| > |s| then -1
    else if OccursAt(s, sub, from) then from
    else IndexFrom(s, sub, from + 1)
  }

  lemma IndexIs(s: string, sub: string, i: nat)
    requires OccursAt(s, sub, i)
    requires forall j :: 0 <= j < i ==> !OccursAt(s, sub, j)
    ensures IndexFrom(s, sub, 0) == i
  {
  }

  /** An occurrence in a string stays where it is when text is added after it. */
  lemma OccursInPrefix(a: string, b: string, sub: string, i: nat)
    requires i + |sub| <= |a|
    ensures OccursAt(a + b, sub, i) == OccursAt(a, sub, i)
  {
    assert (a + b)[i..i + |sub|] == a[i..i + |sub|];
  }

  lemma IndexOfExtension(a: string, b: string, sub: string)
    requires IndexFrom(a, sub, 0) >= 0
    ensures IndexFrom(a + b, sub, 0) == IndexFrom(a, sub, 0)
  {
    var i := IndexFrom(a, sub, 0);
    OccursInPrefix(a, b, sub, i);
    forall j | 0 <= j < i ensures !OccursAt(a + b, sub, j) {
      OccursInPrefix(a, b, sub, j);
    }
    IndexIs(a + b, sub, i);
  }

  /** Text that does not hold the first character of `sub` puts no occurrence before it. */
  lemma IndexAfterOther(a: string, sub: string)
    requires |sub| > 0 && sub[0] !in a
    ensures IndexFrom(a + sub, sub, 0) == |a|
  {
    Halves(a, sub);
    assert (a + sub)[|a|..|a| + |sub|] == sub;
    forall j | 0 <= j < |a| ensures !OccursAt(a + sub, sub, j) {
      assert (a + sub)[j] == a[j];
    }
    IndexIs(a + sub, sub, |a|);
  }

  predicate Contains(s: string, sub: string) {
    IndexFrom(s, sub, 0) >= 0
  }

  /** `strings.Replace(s, sub, "", 1)`. */
  function RemoveFirst(s: string, sub: string): string {
    var i := IndexFrom(s, sub, 0);
    if i < 0 then s else s[..i] + s[i + |sub|..]
  }

  /** Removing a prefix that is also repeated later removes only the prefix. */
  lemma RemoveLeadingPrefix(pre: string, rest: string)
    ensures RemoveFirst(pre + rest, pre) == rest
  {
    assert (pre + rest)[0..0 + |pre|] == pre;
    assert OccursAt(pre + rest, pre, 0);
    assert (pre + rest)[|pre|..] == rest;
  }

  /** The first index at or after `from` that holds `c`, or |s|. */
  function Find(s: string, c: char, from: nat): (i: nat)
    requires from <= |s|
    ensures from <= i <= |s|
    ensures i < |s| ==> s[i] == c
    ensures forall j :: from <= j < i ==> s[j] != c
    decreases |s| - from
  {
    if from == |s| || s[from] == c then from else Find(s, c, from + 1)
  }

  lemma FindIs(s: string, c: char, i: nat)
    requires i <= |s|
    requires i < |s| ==> s[i] == c
    requires forall j :: 0 <= j < i ==> s[j] != c
    ensures Find(s, c, 0) == i
  {
    var k := Find(s, c, 0);
    assert !(k < i) && !(i < k);
  }

  /** `strings.Split(s, "/")`. */
  function Split(s: string): (parts: seq<string>)
    ensures |parts| >= 1
    ensures (|parts| == 1) == ('/' !in s)
    ensures |parts| == 1 ==> parts[0] == s
    decreases |s|
  {
    var i := Find(s, '/', 0);
    if i == |s| then [s] else [s[..i]] + Split(s[i + 1..])
  }

  /** `strings.Join(parts, "/")`. */
  function Join(parts: seq<string>): string {
    if |parts| == 0 then ""
    else if |parts| == 1 then parts[0]
    else parts[0] + "/" + Join(parts[1..])
  }

  lemma {:induction false} JoinSplit(s: string)
    ensures Join(Split(s)) == s
    decreases |s|
  {
    var i := Find(s, '/', 0);
    if i < |s| {
      JoinSplit(s[i + 1..]);
      Halves([s[..i]], Split(s[i + 1..]));
      Cut(s, i);
      assert Join(Split(s)) == s[..i] + "/" + s[i + 1..];
    }
  }

  lemma FindAfter(head: string, c: char, rest: string)
    requires c !in head
    ensures Find(head + [c] + rest, c, 0) == |head|
  {
    HalvesAround(head, c, rest);
    assert forall j :: 0 <= j < |head| ==> (head + [c] + rest)[j] == head[j];
    FindIs(head + [c] + rest, c, |head|);
  }

  /** A name whose first component is `head` splits into that component and the rest. */
  lemma SplitAfterHead(head: string, rest: string)
    requires '/' !in head
    ensures Split(head + "/" + rest)[0] == head
    ensures Join(Split(head + "/" + rest)[1..]) == rest
  {
    FindAfter(head, '/', rest);
    HalvesAround(head, '/', rest);
    Halves([head], Split(rest));
    JoinSplit(rest);
  }
}
