/** buildBag of the restorer (workers/apt_restorer.go) over the files of one object and the
    directory it is restored into. */
module Packagers {
  import opened Collections
  import opened Options
  import opened TarFiles
  import opened Manifests
  import opened Bags
  import opened WorkSummaries
  import opened Packaging

  const BAGIT := "bagit.txt"
  const BAG_INFO := "bag-info.txt"
  const APTRUST_INFO := "aptrust-info.txt"
  const PREMIS_EVENTS := "PremisEvents.json"

  type Disk = map<string, string>

  /** What a download leaves behind: the object's bytes, or an error and perhaps a stump. */
  datatype Download = Arrived(content: string) | Broken(partial: Option<string>)

  // ----- fetching -----

  /** The files counted as active. */
  predicate Wanted(f: GenericFile) {
    f.state.Active? && f.Path() != BAG_INFO
  }

  /** The files the fetch loop visits. */
  predicate Visited(f: GenericFile) {
    !f.state.Deleted? && f.Path() != BAG_INFO
  }

  function CountWanted(files: seq<GenericFile>): nat {
    if |files| == 0 then 0 else (if Wanted(files[0]) then 1 else 0) + CountWanted(files[1..])
  }

  function CountVisited(files: seq<GenericFile>): nat {
    if |files| == 0 then 0 else (if Visited(files[0]) then 1 else 0) + CountVisited(files[1..])
  }

  lemma {:induction false} WantedAreVisited(files: seq<GenericFile>)
    ensures CountWanted(files) <= CountVisited(files)
  {
    if |files| > 0 {
      WantedAreVisited(files[1..]);
    }
  }

  /** There is a digest to compare with and a key to fetch by. */
  predicate Fetchable(f: GenericFile) {
    f.Has(Sha256) && '/' in f.uri
  }

  /** A file of the right size on disk is taken for the right one. */
  predicate OnDisk(f: GenericFile, disk: Disk) {
    f.Path() in disk && |disk[f.Path()]| == f.size
  }

  predicate Arrives(hash: (Algorithm, string) -> string, f: GenericFile, download: Download) {
    download.Arrived? && hash(Sha256, download.content) == f.Digest(Sha256)
  }

  predicate FetchOk(hash: (Algorithm, string) -> string, f: GenericFile, download: Download, disk: Disk) {
    Fetchable(f) && (OnDisk(f, disk) || Arrives(hash, f, download))
  }

  /** What a fetch leaves on disk: a download is not removed if its digest is wrong. */
  function DiskAfter(f: GenericFile, download: Download, disk: Disk): Disk {
    if !Fetchable(f) || OnDisk(f, disk) then disk
    else
      match download
      case Arrived(content) => disk[f.Path() := content]
      case Broken(partial) => if partial.Some? then disk[f.Path() := partial.value] else disk
  }

  /** When fetching one file succeeds and what it leaves: without a dated sha256 or a key nothing
      is done; a file of the right size is kept unread; else whatever arrives is written, be
      it whole or not, and it is right if it has the recorded sha256. */
  lemma FetchMeans(hash: (Algorithm, string) -> string, f: GenericFile, download: Download, disk: Disk)
    ensures var p := f.Path();
            var known := '/' in f.uri && exists j :: 0 <= j < |f.checksums| && f.checksums[j].alg == Sha256 &&
                                                     f.checksums[j].time > 0;
            var kept := p in disk && |disk[p]| == f.size;
            && (FetchOk(hash, f, download, disk) <==>
                known && (kept || (download.Arrived? && hash(Sha256, download.content) == f.Digest(Sha256))))
            && (!known || kept || download == Broken(None) ==> DiskAfter(f, download, disk) == disk)
            && (known && !kept && download.Arrived? ==> DiskAfter(f, download, disk) == disk[p := download.content])
            && (known && !kept && download.Broken? && download.partial.Some? ==>
                  DiskAfter(f, download, disk) == disk[p := download.partial.value])
  {
    var i := LatestIsFirstOfTheLatest(f.checksums, Sha256);
  }

  datatype Fetch = Fetch(ok: bool, disk: Disk)

  /** The fetch loop, up to the first error. */
  function FetchFrom(hash: (Algorithm, string) -> string, files: seq<GenericFile>, downloads: seq<Download>,
                     disk: Disk): Fetch
    requires |downloads| == |files|
    decreases |files|
  {
    if |files| == 0 then Fetch(true, disk)
    else if !Visited(files[0]) then FetchFrom(hash, files[1..], downloads[1..], disk)
    else
      var after := DiskAfter(files[0], downloads[0], disk);
      if FetchOk(hash, files[0], downloads[0], disk) then FetchFrom(hash, files[1..], downloads[1..], after)
      else Fetch(false, after)
  }

  predicate VisitedPathsDiffer(files: seq<GenericFile>) {
    forall i, j :: 0 <= i < j < |files| && Visited(files[i]) && Visited(files[j]) ==> files[i].Path() != files[j].Path()
  }

  lemma OtherFetch(hash: (Algorithm, string) -> string, f: GenericFile, g: GenericFile, d: Download, e: Download,
                   disk: Disk)
    requires f.Path() != g.Path()
    ensures FetchOk(hash, g, e, DiskAfter(f, d, disk)) == FetchOk(hash, g, e, disk)
    ensures g.Path() in DiskAfter(f, d, disk) <==> g.Path() in disk
    ensures g.Path() in disk ==> DiskAfter(f, d, disk)[g.Path()] == disk[g.Path()]
  {
  }

  /** Over files with paths of their own, the fetch succeeds exactly when each visited file is
      on disk with its size beforehand, or arrives with its digest. */
  lemma {:induction false} FetchSucceedsIff(hash: (Algorithm, string) -> string, files: seq<GenericFile>,
                                            downloads: seq<Download>, disk: Disk)
    requires |downloads| == |files| && VisitedPathsDiffer(files)
    ensures FetchFrom(hash, files, downloads, disk).ok <==>
            forall i :: 0 <= i < |files| && Visited(files[i]) ==> FetchOk(hash, files[i], downloads[i], disk)
    decreases |files|
  {
    if |files| > 0 {
      assert forall i :: 0 < i < |files| ==> files[i] == files[1..][i - 1] && downloads[i] == downloads[1..][i - 1];
      if !Visited(files[0]) {
        FetchSucceedsIff(hash, files[1..], downloads[1..], disk);
      } else {
        var after := DiskAfter(files[0], downloads[0], disk);
        FetchSucceedsIff(hash, files[1..], downloads[1..], after);
        forall i | 0 < i < |files| && Visited(files[i])
          ensures FetchOk(hash, files[i], downloads[i], after) == FetchOk(hash, files[i], downloads[i], disk)
        {
          OtherFetch(hash, files[0], files[i], downloads[0], downloads[i], disk);
        }
      }
    }
  }

  lemma {:induction false} UnvisitedStays(hash: (Algorithm, string) -> string, files: seq<GenericFile>,
                                          downloads: seq<Download>, disk: Disk, p: string)
    requires |downloads| == |files| && !IsVisitedPath(files, p)
    ensures var r := FetchFrom(hash, files, downloads, disk).disk;
            (p in r <==> p in disk) && (p in disk ==> r[p] == disk[p])
    decreases |files|
  {
    if |files| > 0 {
      assert forall i :: 0 < i < |files| ==> files[i] == files[1..][i - 1];
      if Visited(files[0]) {
        UnvisitedStays(hash, files[1..], downloads[1..], DiskAfter(files[0], downloads[0], disk), p);
      } else {
        UnvisitedStays(hash, files[1..], downloads[1..], disk, p);
      }
    }
  }

  /** After a fetch without an error, the file is the one that lay there with the right size,
      or the one that arrived. */
  lemma {:induction false} FetchedIs(hash: (Algorithm, string) -> string, files: seq<GenericFile>,
                                     downloads: seq<Download>, disk: Disk, i: nat)
    requires |downloads| == |files| && VisitedPathsDiffer(files) && i < |files| && Visited(files[i])
    requires FetchFrom(hash, files, downloads, disk).ok
    ensures var r, p := FetchFrom(hash, files, downloads, disk).disk, files[i].Path();
            p in r && if OnDisk(files[i], disk) then r[p] == disk[p]
                      else downloads[i].Arrived? && r[p] == downloads[i].content
    decreases |files|
  {
    if i > 0 {
      if Visited(files[0]) {
        OtherFetch(hash, files[0], files[i], downloads[0], downloads[i], disk);
        FetchedIs(hash, files[1..], downloads[1..], DiskAfter(files[0], downloads[0], disk), i - 1);
      } else {
        FetchedIs(hash, files[1..], downloads[1..], disk, i - 1);
      }
    } else {
      assert forall j :: 0 < j < |files| ==> files[j] == files[1..][j - 1];
      UnvisitedStays(hash, files[1..], downloads[1..], DiskAfter(files[0], downloads[0], disk), files[0].Path());
    }
  }

  /** The counts agree exactly if every visited file is active. */
  lemma {:induction false} CountsAgreeIff(files: seq<GenericFile>)
    ensures CountVisited(files) == CountWanted(files) <==>
            forall i :: 0 <= i < |files| && Visited(files[i]) ==> Wanted(files[i])
  {
    if |files| > 0 {
      CountsAgreeIff(files[1..]);
      WantedAreVisited(files[1..]);
      assert forall i :: 0 < i < |files| ==> files[i] == files[1..][i - 1];
    }
  }

  /** The file is on disk, and either its size or its sha256 digest is as recorded. */
  predicate InPlace(hash: (Algorithm, string) -> string, f: GenericFile, disk: Disk) {
    && f.Path() in disk
    && (|disk[f.Path()]| == f.size || hash(Sha256, disk[f.Path()]) == f.Digest(Sha256))
  }

  /** No two files but bagit.txt share a path. */
  predicate DistinctPaths(files: seq<GenericFile>) {
    forall i, j :: 0 <= i < j < |files| && files[i].Path() == files[j].Path() ==> files[i].Path() == BAGIT
  }

  predicate IsVisitedPath(files: seq<GenericFile>, p: string) {
    exists i :: 0 <= i < |files| && Visited(files[i]) && files[i].Path() == p
  }

  /** Nothing on disk changes but the paths of visited files, and no file disappears. */
  predicate OnlyVisitedChanged(files: seq<GenericFile>, before: Disk, after: Disk) {
    && before.Keys <= after.Keys
    && (forall p :: p in after && !IsVisitedPath(files, p) ==> p in before && after[p] == before[p])
  }

  /** At most this path has changed or appeared. */
  predicate ChangedOnlyAt(before: Disk, after: Disk, path: string) {
    && before.Keys <= after.Keys
    && (forall p :: p in after && p != path ==> p in before && after[p] == before[p])
  }

  /** Of the first `n` files, those that are visited are in place (bagit.txt aside). */
  predicate AllInPlace(hash: (Algorithm, string) -> string, files: seq<GenericFile>, n: nat, disk: Disk)
    requires n <= |files|
  {
    forall i :: 0 <= i < n && Visited(files[i]) && files[i].Path() != BAGIT ==> InPlace(hash, files[i], disk)
  }

  lemma VisitedStep(files: seq<GenericFile>, i: nat, start: Disk, before: Disk, after: Disk)
    requires i < |files| && Visited(files[i])
    requires OnlyVisitedChanged(files, start, before) && ChangedOnlyAt(before, after, files[i].Path())
    ensures OnlyVisitedChanged(files, start, after)
  {
    assert IsVisitedPath(files, files[i].Path());
  }

  lemma InPlaceStep(hash: (Algorithm, string) -> string, files: seq<GenericFile>, i: nat, before: Disk, after: Disk)
    requires i < |files| && DistinctPaths(files) && AllInPlace(hash, files, i, before)
    requires ChangedOnlyAt(before, after, files[i].Path()) && InPlace(hash, files[i], after)
    ensures AllInPlace(hash, files, i + 1, after)
  {
    forall j | 0 <= j < i + 1 && Visited(files[j]) && files[j].Path() != BAGIT ensures InPlace(hash, files[j], after) {
      if j < i {
        assert files[j].Path() != files[i].Path();
      }
    }
  }

  // ----- the generated files -----

  /** The record that addFile makes for a file it has just written. */
  function Generated(hash: (Algorithm, string) -> string, obj: string, path: string, content: string,
                     now: nat): GenericFile {
    GenericFile(Identifier(obj, path), obj, 0, OtherState, "", ChecksumsOf(hash, content, now))
  }

  function ChecksumsOf(hash: (Algorithm, string) -> string, content: string, now: nat): seq<Checksum> {
    [Checksum(Md5, hash(Md5, content), now), Checksum(Sha256, hash(Sha256, content), now)]
  }

  function FirstWith(files: seq<GenericFile>, path: string): (i: nat)
    ensures i <= |files| && (i < |files| ==> files[i].Path() == path)
    ensures forall j :: 0 <= j < i ==> files[j].Path() != path
  {
    if |files| == 0 || files[0].Path() == path then 0 else 1 + FirstWith(files[1..], path)
  }

  function WithoutFirst(files: seq<GenericFile>, path: string): seq<GenericFile> {
    var i := FirstWith(files, path);
    if i < |files| then files[..i] + files[i + 1..] else files
  }

  /** The recorded digests of the file, where there are any, are those of its bytes on disk. */
  predicate Matches(hash: (Algorithm, string) -> string, f: GenericFile, disk: Disk) {
    && f.Path() in disk
    && (f.Digest(Md5) == "" || f.Digest(Md5) == hash(Md5, disk[f.Path()]))
    && (f.Digest(Sha256) == "" || f.Digest(Sha256) == hash(Sha256, disk[f.Path()]))
  }

  lemma LatestOfTwo(hash: (Algorithm, string) -> string, content: string, now: nat)
    requires now > 0
    ensures Latest(ChecksumsOf(hash, content, now), Md5) == Some(Checksum(Md5, hash(Md5, content), now))
    ensures Latest(ChecksumsOf(hash, content, now), Sha256) == Some(Checksum(Sha256, hash(Sha256, content), now))
  {
    var cs := ChecksumsOf(hash, content, now);
    assert cs[..1] == [Checksum(Md5, hash(Md5, content), now)];
    assert cs[..1][..0] == [];
    assert Latest(cs[..1], Md5) == Some(cs[0]);
    assert Latest(cs[..1], Sha256) == None;
  }

  lemma GeneratedMatches(hash: (Algorithm, string) -> string, obj: string, path: string, disk: Disk, now: nat)
    requires path in disk && now > 0
    ensures var g := Generated(hash, obj, path, disk[path], now);
            g.Path() == path && Matches(hash, g, disk) && g.Has(Md5) && g.Has(Sha256)
  {
    OriginalPathOfIdentifier(obj, path);
    LatestOfTwo(hash, disk[path], now);
  }

  // ----- writing the generated files, as functions of the records and the disk -----

  datatype Work = Work(files: seq<GenericFile>, disk: Disk)

  /** The texts of the generated files. The one of bag-info.txt depends on Payload-Oxum. */
  datatype Texts = Texts(aptrustInfo: string, bagit: string, bagInfo: (nat, nat) -> string, premis: string)

  function Written(w: Work, path: string, content: string): Work {
    w.(disk := w.disk[path := content])
  }

  /** addFile: record a file just written. An old record of bag-info.txt makes way for the new one. */
  function Recorded(hash: (Algorithm, string) -> string, obj: string, w: Work, path: string, now: nat): Work
    requires path in w.disk
  {
    var kept := if path == BAG_INFO then WithoutFirst(w.files, BAG_INFO) else w.files;
    w.(files := kept + [Generated(hash, obj, path, w.disk[path], now)])
  }

  function WriteAptrustInfo(hash: (Algorithm, string) -> string, obj: string, w: Work, text: string, now: nat): Work {
    if APTRUST_INFO in w.disk then w else Recorded(hash, obj, Written(w, APTRUST_INFO, text), APTRUST_INFO, now)
  }

  function WriteBagit(hash: (Algorithm, string) -> string, obj: string, w: Work, text: string, now: nat): Work {
    Recorded(hash, obj, Written(w, BAGIT, text), BAGIT, now)
  }

  function WriteBagInfo(hash: (Algorithm, string) -> string, obj: string, w: Work, text: (nat, nat) -> string,
                        now: nat): Work {
    Recorded(hash, obj, Written(w, BAG_INFO, text(PayloadBytes(w.files), PayloadCount(w.files))), BAG_INFO, now)
  }

  /** The file is opened without truncation, so the tail of a longer old text stays. */
  function Overwritten(disk: Disk, path: string, text: string): string {
    if path in disk && |disk[path]| > |text| then text + disk[path][|text|..] else text
  }

  function LastWith(files: seq<GenericFile>, path: string): (i: int)
    ensures -1 <= i < |files| && (i >= 0 ==> files[i].Path() == path)
    ensures forall j :: i < j < |files| ==> files[j].Path() != path
  {
    if |files| == 0 then -1
    else if files[|files| - 1].Path() == path then |files| - 1
    else LastWith(files[..|files| - 1], path)
  }

  /** The record that decides for a path: its lines come last in the manifests. */
  function LastRecord(files: seq<GenericFile>, path: string): Option<GenericFile> {
    var i := LastWith(files, path);
    if i < 0 then None else Some(files[i])
  }

  lemma LastWithIs(files: seq<GenericFile>, path: string, i: int)
    requires -1 <= i < |files| && (i >= 0 ==> files[i].Path() == path)
    requires forall j :: i < j < |files| ==> files[j].Path() != path
    ensures LastWith(files, path) == i
  {
    var k := LastWith(files, path);
    assert !(i < k) && !(k < i);
  }

  lemma LastOfAppend(files: seq<GenericFile>, g: GenericFile, path: string)
    ensures LastRecord(files + [g], path) == if g.Path() == path then Some(g) else LastRecord(files, path)
  {
    Halves(files, [g]);
    LastWithIs(files + [g], path, if g.Path() == path then |files| else LastWith(files, path));
  }

  lemma LastOfWithout(files: seq<GenericFile>, other: string, path: string)
    requires path != other
    ensures LastRecord(WithoutFirst(files, other), path) == LastRecord(files, path)
  {
    var k, r, i := FirstWith(files, other), WithoutFirst(files, other), LastWith(files, path);
    if k < |files| {
      assert forall j :: 0 <= j < |r| ==> r[j] == files[if j < k then j else j + 1];
      LastWithIs(r, path, if i < k then i else i - 1);
    }
  }

  lemma LastOfUpdate(files: seq<GenericFile>, i: nat, g: GenericFile, path: string)
    requires i < |files| && i == LastWith(files, g.Path())
    ensures LastRecord(files[i := g], path) == if g.Path() == path then Some(g) else LastRecord(files, path)
  {
    var r := files[i := g];
    assert forall j :: 0 <= j < |r| ==> r[j].Path() == files[j].Path();
    LastWithIs(r, path, LastWith(files, path));
  }

  function WritePremisEvents(hash: (Algorithm, string) -> string, obj: string, w: Work, text: string, now: nat): Work {
    var content := Overwritten(w.disk, PREMIS_EVENTS, text);
    var cs := ChecksumsOf(hash, content, now);
    var i := LastWith(w.files, PREMIS_EVENTS);
    var files := if i < 0 then w.files + [GenericFile(Identifier(obj, PREMIS_EVENTS), obj, 0, OtherState, "", cs)]
                 else w.files[i := w.files[i].(checksums := cs)];
    Work(files, w.disk[PREMIS_EVENTS := content])
  }

  function WriteGenerated(hash: (Algorithm, string) -> string, obj: string, w: Work, texts: Texts, now: nat): Work {
    var w1 := WriteAptrustInfo(hash, obj, w, texts.aptrustInfo, now);
    var w2 := WriteBagit(hash, obj, w1, texts.bagit, now);
    var w3 := WriteBagInfo(hash, obj, w2, texts.bagInfo, now);
    WritePremisEvents(hash, obj, w3, texts.premis, now)
  }

  // ----- Payload-Oxum and the payload manifest -----

  predicate SamePayload(a: seq<GenericFile>, b: seq<GenericFile>) {
    PayloadCount(a) == PayloadCount(b) && PayloadBytes(a) == PayloadBytes(b)
  }

  /** The counts are sums over the files. */
  lemma {:induction false} PayloadAppend(a: seq<GenericFile>, b: seq<GenericFile>)
    ensures PayloadCount(a + b) == PayloadCount(a) + PayloadCount(b)
    ensures PayloadBytes(a + b) == PayloadBytes(a) + PayloadBytes(b)
  {
    if |a| == 0 {
      Nothing(b);
    } else {
      Cut(a, 0);
      assert (a + b)[0] == a[0] && (a + b)[1..] == a[1..] + b;
      PayloadAppend(a[1..], b);
    }
  }

  lemma PayloadOfOne(f: GenericFile)
    ensures PayloadCount([f]) == if "data/" <= f.Path() then 1 else 0
    ensures PayloadBytes([f]) == if "data/" <= f.Path() then f.size else 0
  {
    assert [f][1..] == [];
  }

  lemma PayloadSplit(files: seq<GenericFile>, i: nat)
    requires i < |files|
    ensures PayloadCount(files) == PayloadCount(files[..i]) + PayloadCount([files[i]]) + PayloadCount(files[i + 1..])
    ensures PayloadBytes(files) == PayloadBytes(files[..i]) + PayloadBytes([files[i]]) + PayloadBytes(files[i + 1..])
  {
    Cut(files, i);
    PayloadAppend(files[..i] + [files[i]], files[i + 1..]);
    PayloadAppend(files[..i], [files[i]]);
  }

  lemma PayloadWithout(files: seq<GenericFile>, path: string)
    requires !("data/" <= path)
    ensures SamePayload(WithoutFirst(files, path), files)
  {
    var i := FirstWith(files, path);
    if i < |files| {
      PayloadSplit(files, i);
      PayloadOfOne(files[i]);
      PayloadAppend(files[..i], files[i + 1..]);
    }
  }

  lemma PayloadUpdate(files: seq<GenericFile>, i: nat, g: GenericFile)
    requires i < |files| && g.Path() == files[i].Path() && g.size == files[i].size
    ensures SamePayload(files[i := g], files)
  {
    var r := files[i := g];
    PayloadSplit(files, i);
    PayloadSplit(r, i);
    PayloadOfOne(files[i]);
    PayloadOfOne(g);
    assert r[..i] == files[..i] && r[i + 1..] == files[i + 1..];
  }

  lemma GeneratedIsNoPayload()
    ensures !("data/" <= BAG_INFO) && !("data/" <= PREMIS_EVENTS) && !("data/" <= BAGIT) && !("data/" <= APTRUST_INFO)
  {
    assert BAG_INFO[0] == 'b' && PREMIS_EVENTS[0] == 'P' && "data/"[0] == 'd';
    assert BAGIT[0] == 'b' && APTRUST_INFO[0] == 'a';
  }

  /** Recording a file that is no payload leaves Payload-Oxum as it is. */
  lemma RecordedAddsNoPayload(hash: (Algorithm, string) -> string, obj: string, w: Work, path: string, now: nat)
    requires path in w.disk && !("data/" <= path)
    ensures SamePayload(Recorded(hash, obj, w, path, now).files, w.files)
  {
    var g := Generated(hash, obj, path, w.disk[path], now);
    OriginalPathOfIdentifier(obj, path);
    var kept := if path == BAG_INFO then WithoutFirst(w.files, BAG_INFO) else w.files;
    if path == BAG_INFO {
      PayloadWithout(w.files, BAG_INFO);
    }
    PayloadAppend(kept, [g]);
    PayloadOfOne(g);
  }

  lemma PremisAddsNoPayload(hash: (Algorithm, string) -> string, obj: string, w: Work, text: string, now: nat)
    ensures SamePayload(WritePremisEvents(hash, obj, w, text, now).files, w.files)
  {
    var cs := ChecksumsOf(hash, Overwritten(w.disk, PREMIS_EVENTS, text), now);
    var i := LastWith(w.files, PREMIS_EVENTS);
    GeneratedIsNoPayload();
    OriginalPathOfIdentifier(obj, PREMIS_EVENTS);
    if i < 0 {
      var g := GenericFile(Identifier(obj, PREMIS_EVENTS), obj, 0, OtherState, "", cs);
      PayloadAppend(w.files, [g]);
      PayloadOfOne(g);
    } else {
      PayloadUpdate(w.files, i, w.files[i].(checksums := cs));
    }
  }

  lemma FirstFilesAddNoPayload(hash: (Algorithm, string) -> string, obj: string, w: Work, texts: Texts, now: nat)
    ensures var w2 := WriteBagit(hash, obj, WriteAptrustInfo(hash, obj, w, texts.aptrustInfo, now), texts.bagit, now);
            SamePayload(w2.files, w.files)
  {
    var w1 := WriteAptrustInfo(hash, obj, w, texts.aptrustInfo, now);
    GeneratedIsNoPayload();
    if APTRUST_INFO !in w.disk {
      RecordedAddsNoPayload(hash, obj, Written(w, APTRUST_INFO, texts.aptrustInfo), APTRUST_INFO, now);
    }
    RecordedAddsNoPayload(hash, obj, Written(w1, BAGIT, texts.bagit), BAGIT, now);
  }

  lemma NamesDiffer()
    ensures BAG_INFO != PREMIS_EVENTS
  {
    assert BAG_INFO[0] == 'b' && PREMIS_EVENTS[0] == 'P';
  }

  /** The Payload-Oxum that is written into bag-info.txt gives the sum of the recorded sizes of
      the payload files, and the number of lines of either payload manifest, although more
      files are recorded after it is written. */
  lemma OxumIsTrue(hash: (Algorithm, string) -> string, obj: string, w: Work, texts: Texts, now: nat, alg: Algorithm)
    ensures var g := WriteGenerated(hash, obj, w, texts, now);
            BAG_INFO in g.disk &&
            g.disk[BAG_INFO] == texts.bagInfo(PayloadBytes(w.files), |Entries(g.files, Payload, alg)|)
  {
    var w2 := WriteBagit(hash, obj, WriteAptrustInfo(hash, obj, w, texts.aptrustInfo, now), texts.bagit, now);
    var w3 := WriteBagInfo(hash, obj, w2, texts.bagInfo, now);
    var text := texts.bagInfo(PayloadBytes(w2.files), PayloadCount(w2.files));
    GeneratedIsNoPayload();
    NamesDiffer();
    FirstFilesAddNoPayload(hash, obj, w, texts, now);
    RecordedAddsNoPayload(hash, obj, Written(w2, BAG_INFO, text), BAG_INFO, now);
    PremisAddsNoPayload(hash, obj, w3, texts.premis, now);
    StreamCountIsLineCount(WriteGenerated(hash, obj, w, texts, now).files, alg);
  }

  /** PremisEvents.json is the new text exactly if no longer file lay there: it is opened
      without truncation, and the tail of a longer one stays. */
  lemma PremisTailStays(hash: (Algorithm, string) -> string, obj: string, w: Work, text: string, now: nat)
    ensures var r := WritePremisEvents(hash, obj, w, text, now).disk;
            && PREMIS_EVENTS in r && text <= r[PREMIS_EVENTS]
            && (r[PREMIS_EVENTS] == text <==> PREMIS_EVENTS !in w.disk || |w.disk[PREMIS_EVENTS]| <= |text|)
            && (PREMIS_EVENTS in w.disk && |w.disk[PREMIS_EVENTS]| > |text| ==>
                  r[PREMIS_EVENTS][|text|..] == w.disk[PREMIS_EVENTS][|text|..])
  {
  }

  function CountAt(files: seq<GenericFile>, path: string): nat {
    if |files| == 0 then 0 else (if files[0].Path() == path then 1 else 0) + CountAt(files[1..], path)
  }

  lemma {:induction false} CountAtAppend(a: seq<GenericFile>, b: seq<GenericFile>, path: string)
    ensures CountAt(a + b, path) == CountAt(a, path) + CountAt(b, path)
    decreases |a|
  {
    if |a| == 0 {
      Nothing(b);
    } else {
      assert (a + b)[0] == a[0] && (a + b)[1..] == a[1..] + b;
      CountAtAppend(a[1..], b, path);
    }
  }

  lemma {:induction false} NoneAt(files: seq<GenericFile>, path: string)
    requires forall i :: 0 <= i < |files| ==> files[i].Path() != path
    ensures CountAt(files, path) == 0
  {
    if |files| > 0 {
      NoneAt(files[1..], path);
    }
  }

  /** An old record of bag-info.txt makes way for the new one, so the number of its records,
      and with it of its lines in the manifests, stays one if it was at most one. */
  lemma BagInfoIsRecordedOnce(hash: (Algorithm, string) -> string, obj: string, w: Work, now: nat)
    requires BAG_INFO in w.disk
    ensures var n := CountAt(w.files, BAG_INFO);
            CountAt(Recorded(hash, obj, w, BAG_INFO, now).files, BAG_INFO) == if n == 0 then 1 else n
  {
    var files, i := w.files, FirstWith(w.files, BAG_INFO);
    var g := Generated(hash, obj, BAG_INFO, w.disk[BAG_INFO], now);
    OriginalPathOfIdentifier(obj, BAG_INFO);
    CountAtAppend(WithoutFirst(files, BAG_INFO), [g], BAG_INFO);
    assert [g][1..] == [] && CountAt([g], BAG_INFO) == 1;
    if i < |files| {
      Cut(files, i);
      CountAtAppend(files[..i] + [files[i]], files[i + 1..], BAG_INFO);
      CountAtAppend(files[..i], [files[i]], BAG_INFO);
      CountAtAppend(files[..i], files[i + 1..], BAG_INFO);
      assert [files[i]][1..] == [] && CountAt([files[i]], BAG_INFO) == 1;
    } else {
      NoneAt(files, BAG_INFO);
    }
  }

  /** A restoration is cancelled exactly if no file of the object is active, bag-info.txt aside. */
  lemma {:induction false} NoneWantedIff(files: seq<GenericFile>)
    ensures CountWanted(files) == 0 <==>
            forall i :: 0 <= i < |files| ==> !(files[i].state.Active? && files[i].Path() != "bag-info.txt")
  {
    if |files| > 0 {
      NoneWantedIff(files[1..]);
      assert forall i :: 0 < i < |files| ==> files[i] == files[1..][i - 1];
    }
  }

  predicate IsGeneratedName(path: string) {
    path == BAGIT || path == BAG_INFO || path == APTRUST_INFO || path == PREMIS_EVENTS
  }

  predicate IsManifestFile(path: string) {
    exists kind, alg :: path == ManifestName(kind, alg)
  }

  // ----- manifests and archive -----

  /** All four manifests are on disk with the lines of these files. */
  predicate WellPackaged(files: seq<GenericFile>, disk: Disk) {
    forall kind, alg :: ManifestName(kind, alg) in disk &&
      disk[ManifestName(kind, alg)] == Print(Entries(files, kind, alg))
  }

  function WithManifest(files: seq<GenericFile>, disk: Disk, kind: ManifestType, alg: Algorithm): Disk {
    disk[ManifestName(kind, alg) := Print(Entries(files, kind, alg))]
  }

  function WithManifests(files: seq<GenericFile>, disk: Disk): Disk {
    var payload := WithManifest(files, WithManifest(files, disk, Payload, Md5), Payload, Sha256);
    WithManifest(files, WithManifest(files, payload, Tag, Md5), Tag, Sha256)
  }

  lemma ManifestNamesDiffer(kind: ManifestType, alg: Algorithm, kind': ManifestType, alg': Algorithm)
    requires (kind, alg) != (kind', alg')
    ensures ManifestName(kind, alg) != ManifestName(kind', alg')
  {
    assert |ManifestName(Payload, Md5)| == 16 && |ManifestName(Payload, Sha256)| == 19;
    assert |ManifestName(Tag, Md5)| == 19 && |ManifestName(Tag, Sha256)| == 22;
    assert ManifestName(Payload, Sha256)[0] == 'm' && ManifestName(Tag, Md5)[0] == 't';
  }

  lemma FourManifests(files: seq<GenericFile>, disk: Disk)
    ensures var r := WithManifests(files, disk);
            && r.Keys == disk.Keys + {ManifestName(Payload, Md5), ManifestName(Payload, Sha256),
                                      ManifestName(Tag, Md5), ManifestName(Tag, Sha256)}
            && r[ManifestName(Payload, Md5)] == Print(Entries(files, Payload, Md5))
            && r[ManifestName(Payload, Sha256)] == Print(Entries(files, Payload, Sha256))
            && r[ManifestName(Tag, Md5)] == Print(Entries(files, Tag, Md5))
            && r[ManifestName(Tag, Sha256)] == Print(Entries(files, Tag, Sha256))
  {
    var a, b := ManifestName(Payload, Md5), ManifestName(Payload, Sha256);
    var c, d := ManifestName(Tag, Md5), ManifestName(Tag, Sha256);
    ManifestNamesDiffer(Payload, Md5, Payload, Sha256);
    ManifestNamesDiffer(Payload, Md5, Tag, Md5);
    ManifestNamesDiffer(Payload, Md5, Tag, Sha256);
    ManifestNamesDiffer(Payload, Sha256, Tag, Md5);
    ManifestNamesDiffer(Payload, Sha256, Tag, Sha256);
    ManifestNamesDiffer(Tag, Md5, Tag, Sha256);
    FourUpdates(disk, a, Print(Entries(files, Payload, Md5)), b, Print(Entries(files, Payload, Sha256)),
                c, Print(Entries(files, Tag, Md5)), d, Print(Entries(files, Tag, Sha256)));
  }

  lemma ManifestsAreWritten(files: seq<GenericFile>, disk: Disk)
    ensures WellPackaged(files, WithManifests(files, disk))
  {
    var r := WithManifests(files, disk);
    FourManifests(files, disk);
    forall kind: ManifestType, alg: Algorithm
      ensures ManifestName(kind, alg) in r && r[ManifestName(kind, alg)] == Print(Entries(files, kind, alg))
    {
      match (kind, alg)
      case (Payload, Md5) =>
      case (Payload, Sha256) =>
      case (Tag, Md5) =>
      case (Tag, Sha256) =>
    }
  }

  lemma OthersAreKept(files: seq<GenericFile>, disk: Disk, p: string)
    requires !IsManifestFile(p)
    ensures p in WithManifests(files, disk) <==> p in disk
    ensures p in disk ==> WithManifests(files, disk)[p] == disk[p]
  {
    assert p != ManifestName(Payload, Md5) && p != ManifestName(Payload, Sha256);
    assert p != ManifestName(Tag, Md5) && p != ManifestName(Tag, Sha256);
  }

  /** tarBag: one regular entry for each file on disk, in the order of the directory walk. */
  function TarItems(root: string, obj: string, bagName: string, disk: Disk, order: seq<string>): (items: seq<Item>)
    requires RootIsClean(root, obj) && forall i :: 0 <= i < |order| ==> order[i] in disk
    ensures Readable(items)
  {
    seq(|order|, i requires 0 <= i < |order| =>
      Header(ArchiveName(root, obj, bagName, order[i]), Regular, disk[order[i]]))
  }

  /** A fetch without an error: every file not deleted is active and in place. */
  ghost predicate IsFetched(hash: (Algorithm, string) -> string, before: Work, disk: Disk) {
    && (forall i :: 0 <= i < |before.files| && Visited(before.files[i]) ==> Wanted(before.files[i]))
    && OnlyVisitedChanged(before.files, before.disk, disk)
    && (DistinctPaths(before.files) ==> AllInPlace(hash, before.files, |before.files|, disk))
  }

  /** The records and the directory when packaging is done. */
  function Completed(hash: (Algorithm, string) -> string, obj: string, fetched: Work, texts: Texts, now: nat): Work {
    var w := WriteGenerated(hash, obj, fetched, texts, now);
    w.(disk := WithManifests(w.files, w.disk))
  }

  /** The archive is that of the completed directory, and the Payload-Oxum in bag-info.txt is
      true of the records and of either payload manifest. */
  ghost predicate Assembled(p: Packager, fetched: Work, texts: Texts, now: nat, after: Work, items: seq<Item>,
                            order: seq<string>)
    requires RootIsClean(p.root, p.objIdentifier)
  {
    && after == Completed(p.hash, p.objIdentifier, fetched, texts, now)
    && |Entries(after.files, Payload, Md5)| == |Entries(after.files, Payload, Sha256)|
    && BAG_INFO in after.disk
    && after.disk[BAG_INFO] == texts.bagInfo(PayloadBytes(fetched.files), |Entries(after.files, Payload, Md5)|)
    && Enumerates(order, after.disk.Keys)
    && items == TarItems(p.root, p.objIdentifier, p.bagName, after.disk, order)
  }

  lemma BagInfoIsNoManifest()
    ensures !IsManifestFile(BAG_INFO)
  {
    assert |BAG_INFO| == 12;
    assert |ManifestName(Payload, Md5)| == 16 && |ManifestName(Payload, Sha256)| == 19;
    assert |ManifestName(Tag, Md5)| == 19 && |ManifestName(Tag, Sha256)| == 22;
  }

  lemma OxumInBag(hash: (Algorithm, string) -> string, obj: string, fetched: Work, texts: Texts, now: nat)
    ensures var c := Completed(hash, obj, fetched, texts, now);
            && |Entries(c.files, Payload, Md5)| == |Entries(c.files, Payload, Sha256)| && BAG_INFO in c.disk
            && c.disk[BAG_INFO] == texts.bagInfo(PayloadBytes(fetched.files), |Entries(c.files, Payload, Md5)|)
  {
    var w := WriteGenerated(hash, obj, fetched, texts, now);
    OxumIsTrue(hash, obj, fetched, texts, now, Md5);
    StreamCountIsLineCount(w.files, Md5);
    StreamCountIsLineCount(w.files, Sha256);
    BagInfoIsNoManifest();
    OthersAreKept(w.files, w.disk, BAG_INFO);
  }

  /** Exactly when a bag can be built: there are active files and no others but deleted ones,
      each is on disk or arrives, and every file to be listed has both digests. */
  predicate CanBuild(hash: (Algorithm, string) -> string, obj: string, before: Work, prepared: bool,
                     downloads: seq<Download>, texts: Texts, now: nat)
    requires |downloads| == |before.files|
  {
    && CountWanted(before.files) > 0 && FetchesAll(hash, before.files, prepared, downloads, before.disk)
    && var fetched := FetchFrom(hash, before.files, downloads, before.disk).disk;
       HaveAllDigests(WriteGenerated(hash, obj, Work(before.files, fetched), texts, now).files)
  }

  /** What one line adds to the text of a manifest. */
  lemma ManifestTextStep(text: string, files: seq<GenericFile>, i: nat, kind: ManifestType, alg: Algorithm)
    requires i < |files|
    ensures var e := Entry(files[i].Digest(alg), files[i].Path());
            text + Print(Entries(files[i..], kind, alg)) ==
            if Belongs(files[i].Path(), kind) then (text + (Line(e) + "\n")) + Print(Entries(files[i + 1..], kind, alg))
            else text + Print(Entries(files[i + 1..], kind, alg))
  {
    SuffixStep(files, i);
    var e, rest := Entry(files[i].Digest(alg), files[i].Path()), Entries(files[i + 1..], kind, alg);
    PrintFirst(e, rest);
    Assoc(text, Line(e) + "\n", Print(rest));
  }

  lemma PrintFirst(e: Entry, es: seq<Entry>)
    ensures Print([e] + es) == Line(e) + "\n" + Print(es)
  {
    Halves([e], es);
  }

  predicate FetchesAll(hash: (Algorithm, string) -> string, files: seq<GenericFile>, prepared: bool,
                       downloads: seq<Download>, disk: Disk)
    requires |downloads| == |files|
  {
    && prepared && FetchFrom(hash, files, downloads, disk).ok
    && forall i :: 0 <= i < |files| && Visited(files[i]) ==> Wanted(files[i])
  }

  predicate HaveAllDigests(files: seq<GenericFile>) {
    forall kind, alg :: AllHave(files, kind, alg)
  }

  lemma FourHaveAll(files: seq<GenericFile>)
    ensures HaveAllDigests(files) <==> AllHave(files, Payload, Md5) && AllHave(files, Payload, Sha256) &&
                                       AllHave(files, Tag, Md5) && AllHave(files, Tag, Sha256)
  {
    if AllHave(files, Payload, Md5) && AllHave(files, Payload, Sha256) && AllHave(files, Tag, Md5) &&
       AllHave(files, Tag, Sha256) {
      forall kind: ManifestType, alg: Algorithm ensures AllHave(files, kind, alg) {
        match (kind, alg)
        case (Payload, Md5) =>
        case (Payload, Sha256) =>
        case (Tag, Md5) =>
        case (Tag, Sha256) =>
      }
    }
  }

  class Packager {
    const objIdentifier: string
    const bagName: string
    const root: string
    const hash: (Algorithm, string) -> string
    const summary: WorkSummary
    var files: seq<GenericFile>
    var disk: Disk
    var cancelled: bool

    constructor (objIdentifier: string, bagName: string, root: string, hash: (Algorithm, string) -> string,
                 files: seq<GenericFile>, disk: Disk)
      ensures this.objIdentifier == objIdentifier && this.bagName == bagName && this.root == root && this.hash == hash
      ensures this.files == files && this.disk == disk && !cancelled
      ensures fresh(summary) && summary.View() == FRESH
    {
      this.objIdentifier, this.bagName, this.root, this.hash := objIdentifier, bagName, root, hash;
      this.files, this.disk, cancelled := files, disk, false;
      summary := new WorkSummary();
    }

    predicate Failed()
      reads summary
    {
      |summary.errors| > 0
    }

    method CountActive() returns (n: nat)
      ensures n == CountWanted(files)
    {
      n := 0;
      Whole(files);
      for i := 0 to |files|
        invariant n + CountWanted(files[i..]) == CountWanted(files)
      {
        SuffixStep(files, i);
        if files[i].state.Active? && files[i].Path() != BAG_INFO {
          n := n + 1;
        }
      }
    }

    /** Brings one visited file onto the disk. */
    method FetchFile(f: GenericFile, download: Download) returns (ok: bool)
      requires summary.Valid()
      modifies this`disk, summary
      ensures summary.Valid()
      ensures ok <==> FetchOk(hash, f, download, old(disk))
      ensures Failed() == (old(Failed()) || !ok)
      ensures disk == DiskAfter(f, download, old(disk)) && ChangedOnlyAt(old(disk), disk, f.Path())
      ensures ok ==> InPlace(hash, f, disk)
    {
      ok := false;
      if !f.Has(Sha256) {
        summary.AddError("no sha256 digest");
        return;
      }
      if '/' !in f.uri {
        summary.AddError("invalid URI");
        return;
      }
      var path := f.Path();
      if path in disk && |disk[path]| == f.size {
        return true; // already on disk with this size
      }
      match download {
        case Broken(partial) =>
          if partial.Some? {
            disk := disk[path := partial.value];
          }
          summary.AddError("fetch failed");
        case Arrived(content) =>
          disk := disk[path := content];
          if hash(Sha256, content) != f.Digest(Sha256) {
            summary.AddError("sha256 digest mismatch");
            return;
          }
          ok := true;
      }
    }

    /** The fetch loop, which stops at the first error. */
    method FetchEach(downloads: seq<Download>) returns (present: nat)
      requires summary.Valid() && !Failed() && |downloads| == |files|
      modifies this`disk, summary
      ensures summary.Valid() && OnlyVisitedChanged(files, old(disk), disk)
      ensures Fetch(!Failed(), disk) == FetchFrom(hash, files, downloads, old(disk))
      ensures !Failed() ==> present == CountVisited(files)
      ensures !Failed() && DistinctPaths(files) ==> AllInPlace(hash, files, |files|, disk)
    {
      present := 0;
      var going, i := true, 0;
      ghost var all := FetchFrom(hash, files, downloads, disk);
      Whole(files);
      Whole(downloads);
      while going && i < |files|
        invariant 0 <= i <= |files| && summary.Valid() && going == !Failed()
        invariant going ==> present + CountVisited(files[i..]) == CountVisited(files)
        invariant all == if going then FetchFrom(hash, files[i..], downloads[i..], disk) else Fetch(false, disk)
        invariant OnlyVisitedChanged(files, old(disk), disk)
        invariant going && DistinctPaths(files) ==> AllInPlace(hash, files, i, disk)
        decreases |files| - i
      {
        SuffixStep(files, i);
        SuffixStep(downloads, i);
        if !files[i].state.Deleted? && files[i].Path() != BAG_INFO {
          ghost var before := disk;
          going := FetchFile(files[i], downloads[i]);
          VisitedStep(files, i, old(disk), before, disk);
          if going && DistinctPaths(files) {
            InPlaceStep(hash, files, i, before, disk);
          }
          present := present + 1;
        }
        i := i + 1;
      }
      Whole(files);
    }

    /** Without an error, every file that is not deleted is active and on disk, checked by
        size or by digest. The preparations are the bag directory and the storage region. */
    method FetchAllFiles(prepared: bool, downloads: seq<Download>)
      requires summary.Valid() && !Failed() && |downloads| == |files|
      modifies this`disk, this`cancelled, summary
      ensures summary.Valid() && OnlyVisitedChanged(files, old(disk), disk)
      ensures cancelled == (CountWanted(files) == 0)
      ensures !cancelled ==> (!Failed() <==> FetchesAll(hash, files, prepared, downloads, old(disk)))
      ensures !cancelled && !Failed() ==> disk == FetchFrom(hash, files, downloads, old(disk)).disk
      ensures !cancelled && !Failed() ==> forall i :: 0 <= i < |files| && Visited(files[i]) ==> Wanted(files[i])
      ensures !cancelled && !Failed() && DistinctPaths(files) ==> AllInPlace(hash, files, |files|, disk)
    {
      var active := CountActive();
      cancelled := active == 0;
      if cancelled {
        summary.errorIsFatal := true;
        return;
      }
      if !prepared {
        summary.AddError("cannot prepare the fetch");
        return;
      }
      var present := FetchEach(downloads);
      if present != active {
        summary.AddError("found only some of the files");
      }
      CountsAgreeIff(files);
    }

    function View(): Work
      reads this
    {
      Work(files, disk)
    }

    method AddFile(path: string, now: nat)
      requires path in disk
      modifies this`files
      ensures View() == Recorded(hash, objIdentifier, old(View()), path, now)
    {
      var g := Generated(hash, objIdentifier, path, disk[path], now);
      OriginalPathOfIdentifier(objIdentifier, path);
      if g.Path() == BAG_INFO {
        var i := 0;
        while i < |files| && files[i].Path() != BAG_INFO
          invariant 0 <= i <= |files| && forall j :: 0 <= j < i ==> files[j].Path() != BAG_INFO
          invariant files == old(files)
        {
          i := i + 1;
        }
        assert i == FirstWith(files, BAG_INFO);
        if i < |files| {
          files := files[..i] + files[i + 1..];
        }
      }
      files := files + [g];
    }

    method PayloadBytesAndFiles() returns (byteCount: nat, fileCount: nat)
      ensures byteCount == PayloadBytes(files) && fileCount == PayloadCount(files)
    {
      byteCount, fileCount := 0, 0;
      Whole(files);
      for i := 0 to |files|
        invariant byteCount + PayloadBytes(files[i..]) == PayloadBytes(files)
        invariant fileCount + PayloadCount(files[i..]) == PayloadCount(files)
      {
        SuffixStep(files, i);
        if "data/" <= files[i].Path() {
          byteCount, fileCount := byteCount + files[i].size, fileCount + 1;
        }
      }
    }

    method WritePremisEventFile(text: string, now: nat)
      modifies this`files, this`disk
      ensures View() == WritePremisEvents(hash, objIdentifier, old(View()), text, now)
    {
      disk := disk[PREMIS_EVENTS := Overwritten(disk, PREMIS_EVENTS, text)];
      var cs := ChecksumsOf(hash, disk[PREMIS_EVENTS], now);
      var i := LastWith(files, PREMIS_EVENTS);
      if i < 0 {
        files := files + [GenericFile(Identifier(objIdentifier, PREMIS_EVENTS), objIdentifier, 0, OtherState, "", cs)];
      } else {
        files := files[i := files[i].(checksums := cs)];
      }
    }

    method WriteGeneratedFiles(texts: Texts, now: nat)
      modifies this`files, this`disk
      ensures View() == WriteGenerated(hash, objIdentifier, old(View()), texts, now)
    {
      if APTRUST_INFO !in disk {
        disk := disk[APTRUST_INFO := texts.aptrustInfo];
        AddFile(APTRUST_INFO, now);
      }
      disk := disk[BAGIT := texts.bagit];
      AddFile(BAGIT, now);
      var octets, streams := PayloadBytesAndFiles();
      disk := disk[BAG_INFO := texts.bagInfo(octets, streams)];
      AddFile(BAG_INFO, now);
      WritePremisEventFile(texts.premis, now);
    }

    /** The text of one manifest, line by line, up to a file that has no checksum. */
    method ManifestText(kind: ManifestType, alg: Algorithm) returns (complete: bool, text: string)
      ensures complete == AllHave(files, kind, alg)
      ensures complete ==> text == Print(Entries(files, kind, alg))
    {
      text := "";
      var i := 0;
      Whole(files);
      Nothing(Print(Entries(files, kind, alg)));
      while i < |files|
        invariant 0 <= i <= |files|
        invariant text + Print(Entries(files[i..], kind, alg)) == Print(Entries(files, kind, alg))
        invariant forall j :: 0 <= j < i && Belongs(files[j].Path(), kind) ==> files[j].Has(alg)
      {
        ManifestTextStep(text, files, i, kind, alg);
        if Belongs(files[i].Path(), kind) {
          if !files[i].Has(alg) {
            return false, text;
          }
          var e := Entry(files[i].Digest(alg), files[i].Path());
          text := text + (Line(e) + "\n");
        }
        i := i + 1;
      }
      Whole(files);
      Nothing(text);
      complete := true;
    }

    method WriteManifest(kind: ManifestType, alg: Algorithm)
      requires summary.Valid()
      modifies this`disk, summary
      ensures summary.Valid() && Failed() == (old(Failed()) || !AllHave(files, kind, alg))
      ensures AllHave(files, kind, alg) ==> disk == WithManifest(files, old(disk), kind, alg)
    {
      var complete, text := ManifestText(kind, alg);
      if !complete {
        summary.AddError("no checksum");
      }
      disk := disk[ManifestName(kind, alg) := text];
    }

    method WriteManifests()
      requires summary.Valid() && !Failed()
      modifies this`disk, summary
      ensures summary.Valid() && (!Failed() <==> HaveAllDigests(files))
      ensures !Failed() ==> disk == WithManifests(files, old(disk))
    {
      FourHaveAll(files);
      WriteManifest(Payload, Md5);
      WriteManifest(Payload, Sha256);
      WriteManifest(Tag, Md5);
      WriteManifest(Tag, Sha256);
    }

    /** Everything after the fetch: generated files, manifests, archive. */
    method Assemble(texts: Texts, now: nat) returns (items: seq<Item>, ghost order: seq<string>)
      requires summary.Valid() && !Failed() && RootIsClean(root, objIdentifier)
      modifies this`files, this`disk, summary
      ensures summary.Valid()
      ensures !Failed() <==> HaveAllDigests(WriteGenerated(hash, objIdentifier, old(View()), texts, now).files)
      ensures !Failed() ==> Assembled(this, old(View()), texts, now, View(), items, order)
    {
      items, order := [], [];
      OxumInBag(hash, objIdentifier, View(), texts, now);
      WriteGeneratedFiles(texts, now);
      WriteManifests();
      if !Failed() {
        var walk := Enumerate(disk.Keys);
        order := walk;
        items := TarItems(root, objIdentifier, bagName, disk, walk);
      }
    }

    /** The packaging stage. When it ends without an error, the archive holds the directory
        as it then is, with the manifests of the records as they then are. */
    method BuildBag(prepared: bool, downloads: seq<Download>, texts: Texts, now: nat)
      returns (built: bool, items: seq<Item>, ghost fetched: Disk, ghost order: seq<string>)
      requires summary.Valid() && !Failed() && |downloads| == |files| && RootIsClean(root, objIdentifier)
      modifies this`files, this`disk, this`cancelled, summary
      ensures summary.Valid() && built == (!cancelled && !Failed())
      ensures built <==> CanBuild(hash, objIdentifier, old(View()), prepared, downloads, texts, now)
      ensures built ==> fetched == FetchFrom(hash, old(files), downloads, old(disk)).disk
      ensures built ==> IsFetched(hash, old(View()), fetched)
      ensures built ==> Assembled(this, Work(old(files), fetched), texts, now, View(), items, order)
    {
      built, items, fetched, order := false, [], map[], [];
      FetchAllFiles(prepared, downloads);
      fetched := disk;
      if !cancelled && !Failed() {
        assert IsFetched(hash, old(View()), fetched);
        assert View() == Work(old(files), fetched);
        items, order := Assemble(texts, now);
        built := !Failed();
      }
    }
  }
}
