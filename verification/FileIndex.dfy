/** The index of an object's files by path, rebuilt when its size differs from that of the
    list (models/intellectual_object.go). */
module FileIndex {
  import opened Collections
  import opened Options

  /** The last file of that path, as a place in the list. */
  function LastMatch(paths: seq<string>, path: string): (r: Option<nat>)
    ensures r.Some? ==>
              r.value < |paths| && paths[r.value] == path && forall k :: r.value < k < |paths| ==> paths[k] != path
    ensures r.None? <==> path !in paths
    decreases |paths|
  {
    if |paths| == 0 then None
    else if paths[|paths| - 1] == path then Some(|paths| - 1)
    else LastMatch(paths[..|paths| - 1], path)
  }

  ghost predicate IsIndex(index: map<string, nat>, paths: seq<string>) {
    forall path :: Lookup(index, path) == LastMatch(paths, path)
  }

  function Lookup(index: map<string, nat>, path: string): Option<nat> {
    if path in index then Some(index[path]) else None
  }

  /** The index was right for a list of which the present one is an extension, and it is no
      longer than that list. */
  ghost predicate Grew(index: map<string, nat>, paths: seq<string>) {
    exists n :: 0 <= n <= |paths| && IsIndex(index, paths[..n]) && |index| <= n
  }

  lemma IndexStep(m: map<string, nat>, paths: seq<string>, k: nat)
    requires k < |paths| && IsIndex(m, paths[..k])
    ensures IsIndex(m[paths[k] := k], paths[..k + 1]) && |m[paths[k] := k]| <= |m| + 1
  {
    PrefixStep(paths, k);
    var r := m[paths[k] := k];
    assert r.Keys == m.Keys + {paths[k]};
    forall path ensures Lookup(r, path) == LastMatch(paths[..k + 1], path) {
      assert Lookup(m, path) == LastMatch(paths[..k], path);
    }
  }

  class IntellectualObject {
    var paths: seq<string>
    var index: Option<map<string, nat>>

    /** What holds as long as files are only ever appended. */
    ghost predicate Valid()
      reads this
    {
      index.Some? ==> Grew(index.value, paths)
    }

    constructor ()
      ensures Valid() && paths == []
    {
      paths, index := [], None;
    }

    method Append(path: string)
      requires Valid()
      modifies this`paths
      ensures Valid() && paths == old(paths) + [path]
    {
      paths := paths + [path];
      if index.Some? {
        ghost var n :| 0 <= n <= |old(paths)| && IsIndex(index.value, old(paths)[..n]) && |index.value| <= n;
        assert paths[..n] == old(paths)[..n];
      }
    }

    method BuildIndex() returns (m: map<string, nat>)
      ensures IsIndex(m, paths) && |m| <= |paths|
    {
      m := map[];
      for k := 0 to |paths|
        invariant IsIndex(m, paths[..k]) && |m| <= k
      {
        IndexStep(m, paths, k);
        m := m[paths[k] := k];
      }
      Whole(paths);
    }

    /** However lookups and appends alternate, a lookup finds the last file of that path. */
    method FindGenericFile(path: string) returns (r: Option<nat>)
      requires Valid()
      modifies this`index
      ensures Valid() && r == LastMatch(paths, path)
    {
      if index.None? || |index.value| != |paths| {
        var m := BuildIndex();
        index := Some(m);
        Whole(paths);
        assert IsIndex(m, paths[..|paths|]);
      } else {
        ghost var n :| 0 <= n <= |paths| && IsIndex(index.value, paths[..n]) && |index.value| <= n;
        Whole(paths);
      }
      assert IsIndex(index.value, paths);
      r := Lookup(index.value, path);
    }
  }

  /** After the last file is taken off the list and another appended, the list has its old
      length and the old index goes on answering: it finds the file that is gone and does not
      find the new one. */
  lemma ReplacedFileIsMissed(index: map<string, nat>, before: seq<string>, path: string)
    requires IsIndex(index, before) && |index| == |before| > 0
    requires path !in before && before[|before| - 1] !in before[..|before| - 1]
    ensures var after := before[..|before| - 1] + [path];
            && |index| == |after|
            && LastMatch(after, path) == Some(|after| - 1) && Lookup(index, path) == None
            && LastMatch(after, before[|before| - 1]) == None
            && Lookup(index, before[|before| - 1]) == Some(|before| - 1)
  {
    var gone, n := before[|before| - 1], |before| - 1;
    var after := before[..n] + [path];
    Halves(before[..n], [path]);
    assert Lookup(index, path) == LastMatch(before, path) && Lookup(index, gone) == LastMatch(before, gone);
  }

  lemma LastMatchOfDistinct(paths: seq<string>, k: nat)
    requires k < |paths| && forall i, j :: 0 <= i < j < |paths| ==> paths[i] != paths[j]
    ensures LastMatch(paths, paths[k]) == Some(k)
  {
    var r := LastMatch(paths, paths[k]);
    assert r.Some? && !(r.value < k) && !(k < r.value);
  }

  /** The index of a list without duplicates is right for another list of the same length, and
      is then not rebuilt, exactly when it is the same list. */
  lemma IndexIsStaleIff(index: map<string, nat>, before: seq<string>, after: seq<string>)
    requires IsIndex(index, before) && |after| == |before|
    requires forall i, j :: 0 <= i < j < |before| ==> before[i] != before[j]
    ensures IsIndex(index, after) <==> after == before
  {
    if IsIndex(index, after) {
      forall k | 0 <= k < |before| ensures after[k] == before[k] {
        LastMatchOfDistinct(before, k);
        assert Lookup(index, before[k]) == LastMatch(after, before[k]);
      }
    }
  }
}
