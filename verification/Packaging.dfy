/** Packaging a restored bag (workers/apt_restorer.go): fetching the files, writing the
    generated tag files and the four manifests, and tarring the directory. */
module Packaging {
  import opened Collections
  import opened Options
  import opened Text
  import opened TarFiles
  import opened Manifests
  import opened Bags

  datatype FileState = Active | Deleted | OtherState

  datatype Checksum = Checksum(alg: Algorithm, digest: string, time: nat)

  /** The fields of a GenericFile that restoration reads. Time 0 is Go's zero time. */
  datatype GenericFile = GenericFile(identifier: string, objectIdentifier: string, size: nat, state: FileState,
                                     uri: string, checksums: seq<Checksum>)
  {
    function Path(): string {
      OriginalPath(identifier, objectIdentifier)
    }

    /** The recorded digest, or "" if there is none. */
    function Digest(alg: Algorithm): string {
      var c := Latest(checksums, alg);
      if c.None? then "" else c.value.digest
    }

    predicate Has(alg: Algorithm) {
      Latest(checksums, alg).Some?
    }
  }

  /** GetChecksumByAlgorithm: a later entry wins only with a strictly later time. */
  function Latest(cs: seq<Checksum>, alg: Algorithm): Option<Checksum> {
    if |cs| == 0 then None
    else
      var before, last := Latest(cs[..|cs| - 1], alg), cs[|cs| - 1];
      if last.alg == alg && last.time > (if before.None? then 0 else before.value.time) then Some(last) else before
  }

  /** The checksum at `i` is the first among those of its algorithm with the greatest time. */
  predicate LatestAt(cs: seq<Checksum>, alg: Algorithm, i: nat) {
    && i < |cs| && cs[i].alg == alg && cs[i].time > 0
    && (forall j :: 0 <= j < |cs| && cs[j].alg == alg ==> cs[j].time <= cs[i].time)
    && (forall j :: 0 <= j < i && cs[j].alg == alg ==> cs[j].time < cs[i].time)
  }

  /** The checksum returned is the first of those with the greatest time, and there is none
      exactly when no checksum of the algorithm carries a time. */
  lemma {:induction false} LatestIsFirstOfTheLatest(cs: seq<Checksum>, alg: Algorithm) returns (i: nat)
    ensures Latest(cs, alg).None? <==> forall j :: 0 <= j < |cs| && cs[j].alg == alg ==> cs[j].time == 0
    ensures Latest(cs, alg).Some? ==> LatestAt(cs, alg, i) && cs[i] == Latest(cs, alg).value
  {
    i := 0;
    if |cs| > 0 {
      var n := |cs| - 1;
      var k := LatestIsFirstOfTheLatest(cs[..n], alg);
      assert forall j :: 0 <= j < n ==> cs[..n][j] == cs[j];
      i := if Latest(cs, alg) == Latest(cs[..n], alg) then k else n;
    }
  }

  // ----- which manifest a file goes into -----

  datatype ManifestType = Payload | Tag

  predicate Belongs(path: string, kind: ManifestType) {
    path != "bagit.txt" && (("data/" <= path && kind.Payload?) || (!("data/" <= path) && !kind.Payload?))
  }

  /** Every file but bagit.txt goes into one of the two kinds of manifest, and only one. */
  lemma ExactlyOneManifest(path: string)
    ensures path != "bagit.txt" ==> (Belongs(path, Payload) <==> !Belongs(path, Tag))
    ensures path == "bagit.txt" ==> !Belongs(path, Payload) && !Belongs(path, Tag)
    ensures Belongs(path, Payload) <==> "data/" <= path
  {
    if path == "bagit.txt" {
      assert path[0] == 'b';
    }
  }

  function ManifestName(kind: ManifestType, alg: Algorithm): string {
    match (kind, alg)
    case (Payload, Md5) => "manifest-md5.txt"
    case (Payload, Sha256) => "manifest-sha256.txt"
    case (Tag, Md5) => "tagmanifest-md5.txt"
    case (Tag, Sha256) => "tagmanifest-sha256.txt"
  }

  /** The lines of one manifest. */
  function Entries(files: seq<GenericFile>, kind: ManifestType, alg: Algorithm): seq<Entry> {
    if |files| == 0 then []
    else
      var rest := Entries(files[1..], kind, alg);
      if Belongs(files[0].Path(), kind) then [Entry(files[0].Digest(alg), files[0].Path())] + rest else rest
  }

  predicate AllHave(files: seq<GenericFile>, kind: ManifestType, alg: Algorithm) {
    forall i :: 0 <= i < |files| && Belongs(files[i].Path(), kind) ==> files[i].Has(alg)
  }

  lemma {:induction false} EntriesAre(files: seq<GenericFile>, kind: ManifestType, alg: Algorithm, e: Entry)
    ensures e in Entries(files, kind, alg) <==>
            exists i :: 0 <= i < |files| && Belongs(files[i].Path(), kind) &&
              e == Entry(files[i].Digest(alg), files[i].Path())
  {
    if |files| > 0 {
      EntriesAre(files[1..], kind, alg, e);
      assert forall i :: 0 < i < |files| ==> files[1..][i - 1] == files[i];
      if Belongs(files[0].Path(), kind) && e == Entry(files[0].Digest(alg), files[0].Path()) {
        assert e in Entries(files, kind, alg);
      }
    }
  }

  // ----- Payload-Oxum -----

  function PayloadCount(files: seq<GenericFile>): nat {
    if |files| == 0 then 0 else (if "data/" <= files[0].Path() then 1 else 0) + PayloadCount(files[1..])
  }

  function PayloadBytes(files: seq<GenericFile>): nat {
    if |files| == 0 then 0 else (if "data/" <= files[0].Path() then files[0].size else 0) + PayloadBytes(files[1..])
  }

  /** The stream count of Payload-Oxum is the number of lines in the payload manifest. */
  lemma {:induction false} StreamCountIsLineCount(files: seq<GenericFile>, alg: Algorithm)
    ensures PayloadCount(files) == |Entries(files, Payload, alg)|
  {
    if |files| > 0 {
      ExactlyOneManifest(files[0].Path());
      StreamCountIsLineCount(files[1..], alg);
    }
  }

  // ----- the name of a file in the archive -----

  /** `strings.Split(full, sep)[1]`: what stands between the first two occurrences. */
  function SecondPart(full: string, sep: string): string
    requires Contains(full, sep)
  {
    var rest := full[IndexFrom(full, sep, 0) + |sep|..];
    var k := IndexFrom(rest, sep, 0);
    if k < 0 then rest else rest[..k]
  }

  lemma SecondPartIs(full: string, sep: string, rest: string)
    requires Contains(full, sep) && full[IndexFrom(full, sep, 0) + |sep|..] == rest
    ensures SecondPart(full, sep) == if Contains(rest, sep) then rest[..IndexFrom(rest, sep, 0)] else rest
  {
  }

  function TrimSlashes(s: string): (t: string)
    ensures |t| <= |s| && (|s| > 0 && s[|s| - 1] != '/' ==> t == s)
  {
    if |s| > 0 && s[|s| - 1] == '/' then TrimSlashes(s[..|s| - 1]) else s
  }

  function FullPath(root: string, obj: string, path: string): string {
    root + "/" + obj + "/" + path
  }

  /** The restore directory holds no earlier occurrence of the object identifier. */
  predicate RootIsClean(root: string, obj: string) {
    IndexFrom(root + "/" + obj, obj, 0) == |root| + 1
  }

  lemma FirstOccurrence(root: string, obj: string, path: string)
    requires RootIsClean(root, obj)
    ensures IndexFrom(FullPath(root, obj, path), obj, 0) == |root| + 1
    ensures FullPath(root, obj, path)[|root| + 1 + |obj|..] == "/" + path
  {
    var head := root + "/" + obj;
    Assoc(head, "/", path);
    IndexOfExtension(head, "/" + path, obj);
    Halves(head, "/" + path);
  }

  function ArchiveName(root: string, obj: string, bagName: string, path: string): string
    requires RootIsClean(root, obj)
  {
    FirstOccurrence(root, obj, path);
    bagName + TrimSlashes(SecondPart(FullPath(root, obj, path), obj))
  }

  /** A file keeps its path in the archive exactly when the object identifier does not occur
      again inside the path; otherwise the name is cut off there. */
  lemma ArchiveNameKeepsPath(root: string, obj: string, bagName: string, path: string)
    requires RootIsClean(root, obj) && |obj| > 0
    requires |path| > 0 && path[|path| - 1] != '/'
    ensures ArchiveName(root, obj, bagName, path) == bagName + "/" + path <==> !Contains("/" + path, obj)
  {
    FirstOccurrence(root, obj, path);
    var rest := "/" + path;
    SecondPartIs(FullPath(root, obj, path), obj, rest);
    assert rest[|rest| - 1] == path[|path| - 1];
    Assoc(bagName, "/", path);
    assert Contains(rest, obj) ==> |rest[..IndexFrom(rest, obj, 0)]| < |rest|;
  }

  /** Two files whose paths agree up to a second occurrence of the identifier end up under
      one name in the archive. */
  lemma RecurringIdentifierCutsNames(root: string, obj: string, bagName: string, dir: string, x: string, y: string)
    requires RootIsClean(root, obj) && |obj| > 0 && obj[0] !in "/" + dir
    ensures ArchiveName(root, obj, bagName, dir + obj + x) == ArchiveName(root, obj, bagName, dir + obj + y)
  {
    CutName(root, obj, dir, x);
    CutName(root, obj, dir, y);
  }

  lemma Recurrence(obj: string, dir: string, x: string)
    requires |obj| > 0 && obj[0] !in "/" + dir
    ensures IndexFrom("/" + (dir + obj + x), obj, 0) == |"/" + dir|
    ensures ("/" + (dir + obj + x))[..|"/" + dir|] == "/" + dir
  {
    var head := "/" + dir;
    Assoc("/", dir + obj, x);
    Assoc("/", dir, obj);
    Assoc(head, obj, x);
    IndexAfterOther(head, obj);
    IndexOfExtension(head + obj, x, obj);
    Halves(head, obj + x);
  }

  lemma CutName(root: string, obj: string, dir: string, x: string)
    requires RootIsClean(root, obj) && |obj| > 0 && obj[0] !in "/" + dir
    ensures Contains(FullPath(root, obj, dir + obj + x), obj)
    ensures SecondPart(FullPath(root, obj, dir + obj + x), obj) == "/" + dir
  {
    var path := dir + obj + x;
    FirstOccurrence(root, obj, path);
    SecondPartIs(FullPath(root, obj, path), obj, "/" + path);
    Recurrence(obj, dir, x);
  }

  /** Such a bag exists: the file data/i/b/x of object i/b collides with data/i/b/y. */
  lemma CollisionExists()
    ensures RootIsClean("/r", "i/b")
    ensures ArchiveName("/r", "i/b", "b", "data/" + "i/b" + "/x") ==
            ArchiveName("/r", "i/b", "b", "data/" + "i/b" + "/y")
  {
    IndexAfterOther("/r" + "/", "i/b");
    RecurringIdentifierCutsNames("/r", "i/b", "b", "data/", "/x", "/y");
  }
}
