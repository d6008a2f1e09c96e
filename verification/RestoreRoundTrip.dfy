/** From the recorded files of an object to the verdict on its restored bag. */
module RestoreRoundTrip {
  import opened Collections
  import opened Text
  import opened TarFiles
  import opened Manifests
  import opened Bags
  import opened Packaging
  import opened Packagers
  import opened RestoredBags
  import opened Validation

  type Hash = (Algorithm, string) -> string

  // ----- which record decides after the generated files are written -----

  lemma NamesOfGenerated()
    ensures BAGIT != BAG_INFO && BAGIT != APTRUST_INFO && BAGIT != PREMIS_EVENTS
    ensures BAG_INFO != APTRUST_INFO && BAG_INFO != PREMIS_EVENTS && APTRUST_INFO != PREMIS_EVENTS
  {
    assert |BAGIT| == 9 && |BAG_INFO| == 12 && |APTRUST_INFO| == 16 && |PREMIS_EVENTS| == 17;
  }

  /** The record that decides for a path is of a file on disk, with its digests. */
  predicate LastMatches(hash: Hash, w: Work, p: string) {
    LastRecord(w.files, p).Some? && Matches(hash, LastRecord(w.files, p).value, w.disk)
  }

  /** The same record decides for a path, and the file at it is the same. */
  predicate SameAt(w: Work, r: Work, p: string) {
    LastRecord(r.files, p) == LastRecord(w.files, p) && (p in w.disk ==> p in r.disk && r.disk[p] == w.disk[p])
  }

  lemma MatchStays(hash: Hash, w: Work, r: Work, p: string)
    requires SameAt(w, r, p)
    ensures LastMatches(hash, w, p) ==> LastMatches(hash, r, p)
  {
    if LastRecord(w.files, p).Some? {
      assert LastRecord(w.files, p).value.Path() == p;
    }
  }

  lemma AptrustInfoRecords(hash: Hash, obj: string, w: Work, text: string, now: nat, p: string)
    requires now > 0
    ensures var r := WriteAptrustInfo(hash, obj, w, text, now);
            if p == APTRUST_INFO && p !in w.disk then LastMatches(hash, r, p) else SameAt(w, r, p)
  {
    NamesOfGenerated();
    if APTRUST_INFO !in w.disk {
      var g := Generated(hash, obj, APTRUST_INFO, text, now);
      GeneratedMatches(hash, obj, APTRUST_INFO, w.disk[APTRUST_INFO := text], now);
      LastOfAppend(w.files, g, p);
    }
  }

  lemma BagitRecords(hash: Hash, obj: string, w: Work, text: string, now: nat, p: string)
    requires p != BAGIT
    ensures SameAt(w, WriteBagit(hash, obj, w, text, now), p)
  {
    NamesOfGenerated();
    OriginalPathOfIdentifier(obj, BAGIT);
    LastOfAppend(w.files, Generated(hash, obj, BAGIT, text, now), p);
  }

  lemma BagInfoRecords(hash: Hash, obj: string, w: Work, text: (nat, nat) -> string, now: nat, p: string)
    requires now > 0
    ensures var r := WriteBagInfo(hash, obj, w, text, now);
            if p == BAG_INFO then LastMatches(hash, r, p) else SameAt(w, r, p)
  {
    var content := text(PayloadBytes(w.files), PayloadCount(w.files));
    GeneratedMatches(hash, obj, BAG_INFO, w.disk[BAG_INFO := content], now);
    LastOfAppend(WithoutFirst(w.files, BAG_INFO), Generated(hash, obj, BAG_INFO, content, now), p);
    if p != BAG_INFO {
      LastOfWithout(w.files, BAG_INFO, p);
    }
  }

  lemma PremisRecords(hash: Hash, obj: string, w: Work, text: string, now: nat, p: string)
    requires now > 0
    ensures var r := WritePremisEvents(hash, obj, w, text, now);
            if p == PREMIS_EVENTS then LastMatches(hash, r, p) else SameAt(w, r, p)
  {
    var content := Overwritten(w.disk, PREMIS_EVENTS, text);
    var cs := ChecksumsOf(hash, content, now);
    LatestOfTwo(hash, content, now);
    var i := LastWith(w.files, PREMIS_EVENTS);
    if i < 0 {
      OriginalPathOfIdentifier(obj, PREMIS_EVENTS);
      LastOfAppend(w.files, GenericFile(Identifier(obj, PREMIS_EVENTS), obj, 0, OtherState, "", cs), p);
    } else {
      LastOfUpdate(w.files, i, w.files[i].(checksums := cs), p);
    }
  }

  /** A record at this path decides by itself: the file is not one that is written anew. */
  predicate Counts(p: string, fetched: Disk) {
    p != BAGIT && p != BAG_INFO && p != PREMIS_EVENTS && (p == APTRUST_INFO ==> p in fetched)
  }

  /** Writing the generated files changes which record decides only for those files, and
      there it is one that matches the disk. */
  lemma GeneratedRecords(hash: Hash, obj: string, w: Work, texts: Texts, now: nat, p: string)
    requires now > 0 && p != BAGIT
    ensures var g := WriteGenerated(hash, obj, w, texts, now);
            if Counts(p, w.disk) then LastRecord(g.files, p) == LastRecord(w.files, p) else LastMatches(hash, g, p)
  {
    NamesOfGenerated();
    var w1 := WriteAptrustInfo(hash, obj, w, texts.aptrustInfo, now);
    var w2 := WriteBagit(hash, obj, w1, texts.bagit, now);
    var w3 := WriteBagInfo(hash, obj, w2, texts.bagInfo, now);
    var w4 := WritePremisEvents(hash, obj, w3, texts.premis, now);
    AptrustInfoRecords(hash, obj, w, texts.aptrustInfo, now, p);
    BagitRecords(hash, obj, w1, texts.bagit, now, p);
    BagInfoRecords(hash, obj, w2, texts.bagInfo, now, p);
    PremisRecords(hash, obj, w3, texts.premis, now, p);
    if p == BAG_INFO {
      MatchStays(hash, w3, w4, p);
    } else if p == APTRUST_INFO && p !in w.disk {
      MatchStays(hash, w1, w2, p);
      MatchStays(hash, w2, w3, p);
      MatchStays(hash, w3, w4, p);
    }
  }

  // ----- the names on the final disk -----

  /** A path that can be tarred under its own name and is not taken for a manifest. */
  predicate PlainPath(obj: string, p: string) {
    |p| > 0 && p[|p| - 1] != '/' && !Contains("/" + p, obj) && !IsManifestName(p)
  }

  predicate TarPath(obj: string, p: string) {
    |p| > 0 && p[|p| - 1] != '/' && !Contains("/" + p, obj)
  }

  lemma SlashInside(obj: string, name: string)
    requires |obj| > 0 && '/' in obj[1..]
    ensures Contains("/" + name, obj) ==> '/' in name
  {
    var s := "/" + name;
    var k :| 0 <= k < |obj[1..]| && obj[1..][k] == '/';
    var i := IndexFrom(s, obj, 0);
    assert i >= 0 ==> s[i..i + |obj|][k + 1] == s[i + k + 1] && s[i + k + 1] == name[i + k];
  }

  lemma GeneratedNameLetters(name: string)
    requires IsGeneratedName(name)
    ensures |name| > 0 && '/' !in name && name[0] != 't' && name[0] != 'm'
  {
    if name == BAGIT {
      assert forall i :: 0 <= i < |BAGIT| ==> BAGIT[i] != '/';
    } else if name == BAG_INFO {
      assert forall i :: 0 <= i < |BAG_INFO| ==> BAG_INFO[i] != '/';
    } else if name == APTRUST_INFO {
      assert forall i :: 0 <= i < |APTRUST_INFO| ==> APTRUST_INFO[i] != '/';
    } else {
      assert forall i :: 0 <= i < |PREMIS_EVENTS| ==> PREMIS_EVENTS[i] != '/';
    }
  }

  lemma GeneratedNamesArePlain(obj: string, name: string)
    requires |obj| > 0 && '/' in obj[1..] && IsGeneratedName(name)
    ensures PlainPath(obj, name) && !IsManifestFile(name)
  {
    SlashInside(obj, name);
    GeneratedNameLetters(name);
    forall kind, alg ensures name != ManifestName(kind, alg) {
      FirstLetter(kind, alg);
    }
  }

  lemma FirstLetter(kind: ManifestType, alg: Algorithm)
    ensures ManifestName(kind, alg)[0] == if kind.Payload? then 'm' else 't'
  {
  }

  lemma ManifestNamesTar(obj: string, kind: ManifestType, alg: Algorithm)
    requires |obj| > 0 && '/' in obj[1..]
    ensures TarPath(obj, ManifestName(kind, alg))
  {
    var name := ManifestName(kind, alg);
    SlashInside(obj, name);
    match (kind, alg)
    case (Payload, Md5) => assert forall i :: 0 <= i < |name| ==> "manifest-md5.txt"[i] != '/';
    case (Payload, Sha256) => assert forall i :: 0 <= i < |name| ==> "manifest-sha256.txt"[i] != '/';
    case (Tag, Md5) => assert forall i :: 0 <= i < |name| ==> "tagmanifest-md5.txt"[i] != '/';
    case (Tag, Sha256) => assert forall i :: 0 <= i < |name| ==> "tagmanifest-sha256.txt"[i] != '/';
  }

  lemma DiskAfterGenerated(hash: Hash, obj: string, w: Work, texts: Texts, now: nat)
    ensures var d := WriteGenerated(hash, obj, w, texts, now).disk;
            && d.Keys == w.disk.Keys + {APTRUST_INFO, BAGIT, BAG_INFO, PREMIS_EVENTS}
            && forall p :: p in w.disk && p != BAGIT && p != BAG_INFO && p != PREMIS_EVENTS ==> d[p] == w.disk[p]
  {
  }

  // ----- what is asked of the object and the directory -----

  predicate IsWord(s: string) {
    |s| < 1000 && forall i :: 0 <= i < |s| ==> !IsSpace(s[i])
  }

  /** Digests are short words, as hexadecimal digests are. */
  ghost predicate IsDigest(hash: Hash) {
    forall alg, content :: IsWord(hash(alg, content))
  }

  /** An object whose files can be restored: with plain, printable paths, whatever their
      states, and also if several records share a path. */
  predicate Restorable(obj: string, files: seq<GenericFile>) {
    && |obj| > 0 && '/' in obj[1..] && PrintableFiles(files)
    && forall i :: 0 <= i < |files| ==> PlainPath(obj, files[i].Path())
  }

  /** A directory as earlier attempts may have left it. */
  predicate Leftovers(obj: string, disk: Disk) {
    forall p :: p in disk ==> PlainPath(obj, p) || IsManifestFile(p)
  }

  predicate ProfileFits(cfg: Config) {
    cfg.fixity == {Md5, Sha256} && forall kind, alg :: !cfg.IsTagFile(ManifestName(kind, alg))
  }

  lemma FetchedPathsArePlain(hash: Hash, obj: string, before: Work, fetched: Disk, p: string)
    requires Restorable(obj, before.files) && Leftovers(obj, before.disk) && IsFetched(hash, before, fetched) &&
             p in fetched
    ensures PlainPath(obj, p) || IsManifestFile(p)
  {
    if IsVisitedPath(before.files, p) {
      var i :| 0 <= i < |before.files| && Visited(before.files[i]) && before.files[i].Path() == p;
      assert PlainPath(obj, before.files[i].Path());
    }
  }

  lemma FinalPathIs(hash: Hash, obj: string, files: seq<GenericFile>, fetched: Disk, texts: Texts, now: nat, p: string)
    requires p in Completed(hash, obj, Work(files, fetched), texts, now).disk
    ensures p in fetched || IsGeneratedName(p) || IsManifestFile(p)
  {
    var w := WriteGenerated(hash, obj, Work(files, fetched), texts, now);
    DiskAfterGenerated(hash, obj, Work(files, fetched), texts, now);
    if !IsManifestFile(p) {
      OthersAreKept(w.files, w.disk, p);
    }
  }

  /** The final path is plain, or that of one of the four manifests. */
  lemma FinalPathsAreOurs(hash: Hash, obj: string, before: Work, fetched: Disk, texts: Texts, now: nat, p: string)
    requires Restorable(obj, before.files) && Leftovers(obj, before.disk) && IsFetched(hash, before, fetched)
    requires p in Completed(hash, obj, Work(before.files, fetched), texts, now).disk
    ensures PlainPath(obj, p) || IsManifestFile(p)
  {
    FinalPathIs(hash, obj, before.files, fetched, texts, now, p);
    if p in fetched {
      FetchedPathsArePlain(hash, obj, before, fetched, p);
    } else if IsGeneratedName(p) {
      GeneratedNamesArePlain(obj, p);
    }
  }

  lemma FinalDiskIsReady(cfg: Config, root: string, obj: string, bagName: string, before: Work, fetched: Disk,
                         texts: Texts, now: nat)
    requires RootIsClean(root, obj) && '/' !in bagName && ProfileFits(cfg)
    requires Restorable(obj, before.files) && Leftovers(obj, before.disk) && IsFetched(cfg.hash, before, fetched)
    ensures var disk := Completed(cfg.hash, obj, Work(before.files, fetched), texts, now).disk;
            TarReady(root, obj, bagName, disk) && OnlyOurManifests(cfg, disk)
  {
    var disk := Completed(cfg.hash, obj, Work(before.files, fetched), texts, now).disk;
    forall p | p in disk
      ensures TarPath(obj, p) && (IsManifestName(p) ==> IsManifestFile(p))
    {
      FinalPathsAreOurs(cfg.hash, obj, before, fetched, texts, now, p);
      if IsManifestFile(p) {
        var kind, alg :| p == ManifestName(kind, alg);
        ManifestNamesTar(obj, kind, alg);
      }
    }
  }

  // ----- the records -----

  predicate IsRewritten(path: string) {
    path == APTRUST_INFO || path == BAG_INFO || path == PREMIS_EVENTS
  }

  lemma PrintableGenerated(d: string, name: string)
    requires IsWord(d) && IsRewritten(name)
    ensures Printable(Entry(d, name))
  {
    assert '\n' !in APTRUST_INFO && '\n' !in BAG_INFO && '\n' !in PREMIS_EVENTS;
    assert APTRUST_INFO[0] == 'a' && BAG_INFO[0] == 'b' && PREMIS_EVENTS[0] == 'P';
    assert APTRUST_INFO[15] == 't' && BAG_INFO[11] == 't' && PREMIS_EVENTS[16] == 'n';
  }

  /** A record whose lines survive printing. */
  predicate PrintableRecord(f: GenericFile) {
    f.Path() != BAGIT ==> forall alg :: Printable(Entry(f.Digest(alg), f.Path()))
  }

  lemma PrintableFilesAre(files: seq<GenericFile>)
    ensures PrintableFiles(files) <==> forall i :: 0 <= i < |files| ==> PrintableRecord(files[i])
  {
  }

  lemma NewRecordIsPrintable(hash: Hash, f: GenericFile, content: string, now: nat)
    requires IsDigest(hash) && now > 0 && f.checksums == ChecksumsOf(hash, content, now) &&
             (f.Path() == BAGIT || IsRewritten(f.Path()))
    ensures PrintableRecord(f)
  {
    LatestOfTwo(hash, content, now);
    if f.Path() != BAGIT {
      forall alg ensures Printable(Entry(f.Digest(alg), f.Path())) {
        assert f.Digest(alg) == hash(alg, content);
        PrintableGenerated(f.Digest(alg), f.Path());
      }
    }
  }

  lemma RecordedIsPrintable(hash: Hash, obj: string, w: Work, path: string, now: nat)
    requires IsDigest(hash) && now > 0 && path in w.disk && IsGeneratedName(path) && PrintableFiles(w.files)
    ensures PrintableFiles(Recorded(hash, obj, w, path, now).files)
  {
    var g := Generated(hash, obj, path, w.disk[path], now);
    OriginalPathOfIdentifier(obj, path);
    NewRecordIsPrintable(hash, g, w.disk[path], now);
    PrintableFilesAre(w.files);
    PrintableFilesAre(Recorded(hash, obj, w, path, now).files);
  }

  lemma PremisIsPrintable(hash: Hash, obj: string, w: Work, text: string, now: nat)
    requires IsDigest(hash) && now > 0 && PrintableFiles(w.files)
    ensures PrintableFiles(WritePremisEvents(hash, obj, w, text, now).files)
  {
    var content := Overwritten(w.disk, PREMIS_EVENTS, text);
    var cs := ChecksumsOf(hash, content, now);
    var i := LastWith(w.files, PREMIS_EVENTS);
    OriginalPathOfIdentifier(obj, PREMIS_EVENTS);
    NewRecordIsPrintable(hash, GenericFile(Identifier(obj, PREMIS_EVENTS), obj, 0, OtherState, "", cs), content, now);
    if i >= 0 {
      NewRecordIsPrintable(hash, w.files[i].(checksums := cs), content, now);
    }
    PrintableFilesAre(w.files);
    PrintableFilesAre(WritePremisEvents(hash, obj, w, text, now).files);
  }

  lemma GeneratedIsPrintable(hash: Hash, obj: string, w: Work, texts: Texts, now: nat)
    requires IsDigest(hash) && now > 0 && PrintableFiles(w.files)
    ensures PrintableFiles(WriteGenerated(hash, obj, w, texts, now).files)
  {
    var w1 := WriteAptrustInfo(hash, obj, w, texts.aptrustInfo, now);
    if APTRUST_INFO !in w.disk {
      RecordedIsPrintable(hash, obj, Written(w, APTRUST_INFO, texts.aptrustInfo), APTRUST_INFO, now);
    }
    RecordedIsPrintable(hash, obj, Written(w1, BAGIT, texts.bagit), BAGIT, now);
    var w2 := WriteBagit(hash, obj, w1, texts.bagit, now);
    var info := texts.bagInfo(PayloadBytes(w2.files), PayloadCount(w2.files));
    RecordedIsPrintable(hash, obj, Written(w2, BAG_INFO, info), BAG_INFO, now);
    PremisIsPrintable(hash, obj, WriteBagInfo(hash, obj, w2, texts.bagInfo, now), texts.premis, now);
  }

  /** For every original file, those aside that are written anew, the record that decides is
      of a file with the bytes of its latest checksums. */
  ghost predicate OriginalsMatch(hash: Hash, originals: seq<GenericFile>, fetched: Disk) {
    forall p :: Counts(p, fetched) && LastRecord(originals, p).Some? ==>
      Matches(hash, LastRecord(originals, p).value, fetched)
  }

  lemma PlainIsNoManifest(obj: string, p: string)
    requires PlainPath(obj, p)
    ensures !IsManifestFile(p)
  {
    forall kind, alg ensures p != ManifestName(kind, alg) {
      ManifestNamesAreRead(kind, alg);
    }
  }

  /** Neither the generated files nor the manifests touch an original that counts. */
  lemma SameOnFinalDisk(hash: Hash, obj: string, originals: seq<GenericFile>, fetched: Disk, texts: Texts, now: nat,
                        p: string)
    requires Counts(p, fetched) && !IsManifestFile(p)
    ensures var disk := Completed(hash, obj, Work(originals, fetched), texts, now).disk;
            (p in disk <==> p in fetched) && (p in disk ==> disk[p] == fetched[p])
  {
    var g := WriteGenerated(hash, obj, Work(originals, fetched), texts, now);
    DiskAfterGenerated(hash, obj, Work(originals, fetched), texts, now);
    OthersAreKept(g.files, g.disk, p);
  }

  lemma LastIsPlain(obj: string, files: seq<GenericFile>, p: string)
    requires Restorable(obj, files) && LastRecord(files, p).Some?
    ensures PlainPath(obj, p) && !IsManifestFile(p) && LastRecord(files, p).value.Path() == p
  {
    assert PlainPath(obj, files[LastWith(files, p)].Path());
    PlainIsNoManifest(obj, p);
  }

  /** The record that decides in the end matches exactly when that of the original does. */
  lemma MatchOfPath(hash: Hash, obj: string, files: seq<GenericFile>, fetched: Disk, texts: Texts, now: nat, p: string)
    requires Restorable(obj, files) && now > 0 && p != BAGIT
    ensures var w := Completed(hash, obj, Work(files, fetched), texts, now);
            && (!Counts(p, fetched) ==> LastMatches(hash, w, p))
            && (Counts(p, fetched) ==> LastRecord(w.files, p) == LastRecord(files, p))
            && (Counts(p, fetched) && LastRecord(files, p).Some? ==>
                  (Matches(hash, LastRecord(files, p).value, w.disk) <==>
                   Matches(hash, LastRecord(files, p).value, fetched)))
  {
    var g := WriteGenerated(hash, obj, Work(files, fetched), texts, now);
    GeneratedRecords(hash, obj, Work(files, fetched), texts, now, p);
    if !Counts(p, fetched) {
      GeneratedNamesArePlain(obj, p);
      OthersAreKept(g.files, g.disk, p);
    } else if LastRecord(files, p).Some? {
      LastIsPlain(obj, files, p);
      SameOnFinalDisk(hash, obj, files, fetched, texts, now, p);
    }
  }

  lemma MatchOfAll(hash: Hash, obj: string, files: seq<GenericFile>, fetched: Disk, texts: Texts, now: nat)
    requires Restorable(obj, files) && now > 0
    ensures var w := Completed(hash, obj, Work(files, fetched), texts, now);
            AllMatch(hash, w.files, w.disk) <==> OriginalsMatch(hash, files, fetched)
  {
    var w := Completed(hash, obj, Work(files, fetched), texts, now);
    forall p | p != BAGIT
      ensures !Counts(p, fetched) ==> LastMatches(hash, w, p)
      ensures Counts(p, fetched) ==> LastRecord(w.files, p) == LastRecord(files, p)
      ensures Counts(p, fetched) && LastRecord(files, p).Some? ==>
                (Matches(hash, LastRecord(files, p).value, w.disk) <==>
                 Matches(hash, LastRecord(files, p).value, fetched))
    {
      MatchOfPath(hash, obj, files, fetched, texts, now, p);
    }
  }

  lemma PayloadPathIsNotOurs(p: string)
    requires "data/" <= p
    ensures !IsGeneratedName(p) && !IsManifestFile(p)
  {
    assert p[0] == 'd';
    assert BAGIT[0] == 'b' && BAG_INFO[0] == 'b' && APTRUST_INFO[0] == 'a' && PREMIS_EVENTS[0] == 'P';
    forall kind, alg ensures p != ManifestName(kind, alg) {
      FirstLetter(kind, alg);
    }
  }

  lemma PayloadFileIsOriginal(hash: Hash, obj: string, files: seq<GenericFile>, fetched: Disk, texts: Texts, now: nat,
                              p: string)
    requires now > 0 && "data/" <= p
    ensures var w := Completed(hash, obj, Work(files, fetched), texts, now);
            (p in w.disk <==> p in fetched) && (HasRecord(w.files, p) <==> HasRecord(files, p))
  {
    PayloadPathIsNotOurs(p);
    GeneratedRecords(hash, obj, Work(files, fetched), texts, now, p);
    SameOnFinalDisk(hash, obj, files, fetched, texts, now, p);
  }

  lemma SameStrays(a: seq<GenericFile>, disk: Disk, b: seq<GenericFile>, other: Disk)
    requires forall p: string | "data/" <= p :: (p in disk <==> p in other) && (HasRecord(a, p) <==> HasRecord(b, p))
    ensures NoStrayPayload(a, disk) <==> NoStrayPayload(b, other)
  {
  }

  lemma PayloadIsOriginal(hash: Hash, obj: string, files: seq<GenericFile>, fetched: Disk, texts: Texts, now: nat)
    requires now > 0
    ensures var w := Completed(hash, obj, Work(files, fetched), texts, now);
            NoStrayPayload(w.files, w.disk) <==> NoStrayPayload(files, fetched)
  {
    var w := Completed(hash, obj, Work(files, fetched), texts, now);
    forall p: string | "data/" <= p
      ensures (p in w.disk <==> p in fetched) && (HasRecord(w.files, p) <==> HasRecord(files, p)) {
      PayloadFileIsOriginal(hash, obj, files, fetched, texts, now, p);
    }
    SameStrays(w.files, w.disk, files, fetched);
  }

  // ----- the verdict -----

  /** The restored bag of a restorable object validates exactly when, after the fetch, every
      original file holds the bytes of its latest recorded checksums, no payload file lies
      about without a record, and the profile is met. Of several records of one path, the last
      decides; a file that is written anew matches by itself. */
  lemma RestoreVerdict(cfg: Config, root: string, obj: string, bagName: string, before: Work, fetched: Disk,
                       texts: Texts, now: nat, order: seq<string>)
    requires RootIsClean(root, obj) && '/' !in bagName && ProfileFits(cfg) && IsDigest(cfg.hash) && now > 0
    requires Restorable(obj, before.files) && Leftovers(obj, before.disk) && IsFetched(cfg.hash, before, fetched)
    requires Enumerates(order, Completed(cfg.hash, obj, Work(before.files, fetched), texts, now).disk.Keys)
    ensures var disk := Completed(cfg.hash, obj, Work(before.files, fetched), texts, now).disk;
            ValidBag(cfg, TarItems(root, obj, bagName, disk, order), bagName) <==>
            OriginalsMatch(cfg.hash, before.files, fetched) && NoStrayPayload(before.files, fetched) &&
            ProfileOk(cfg, disk)
  {
    var g := WriteGenerated(cfg.hash, obj, Work(before.files, fetched), texts, now);
    var w := Completed(cfg.hash, obj, Work(before.files, fetched), texts, now);
    FinalDiskIsReady(cfg, root, obj, bagName, before, fetched, texts, now);
    GeneratedIsPrintable(cfg.hash, obj, Work(before.files, fetched), texts, now);
    ManifestsAreWritten(g.files, g.disk);
    PackagedBagVerdict(cfg, root, obj, bagName, w.files, w.disk, order);
    PayloadIsOriginal(cfg.hash, obj, before.files, fetched, texts, now);
    MatchOfAll(cfg.hash, obj, before.files, fetched, texts, now);
  }

  /** A file whose bytes do not have the recorded sha256 digest, as one kept only because its
      size is right may be, makes the restored bag invalid. */
  lemma WrongBytesAreCaught(cfg: Config, root: string, obj: string, bagName: string, before: Work, fetched: Disk,
                            texts: Texts, now: nat, order: seq<string>, p: string)
    requires RootIsClean(root, obj) && '/' !in bagName && ProfileFits(cfg) && IsDigest(cfg.hash) && now > 0
    requires Restorable(obj, before.files) && Leftovers(obj, before.disk) && IsFetched(cfg.hash, before, fetched)
    requires Enumerates(order, Completed(cfg.hash, obj, Work(before.files, fetched), texts, now).disk.Keys)
    requires p in fetched && Counts(p, fetched) && RecordedDigest(before.files, p, Sha256) != ""
    requires cfg.hash(Sha256, fetched[p]) != RecordedDigest(before.files, p, Sha256)
    ensures var disk := Completed(cfg.hash, obj, Work(before.files, fetched), texts, now).disk;
            !ValidBag(cfg, TarItems(root, obj, bagName, disk, order), bagName)
  {
    RestoreVerdict(cfg, root, obj, bagName, before, fetched, texts, now, order);
    assert LastRecord(before.files, p).value.Path() == p;
    assert !Matches(cfg.hash, LastRecord(before.files, p).value, fetched);
  }

  /** The bag built for an object with a deleted file is invalid, unless the file is a
      generated one or an earlier attempt has left a copy: the manifests list it all the same. */
  lemma DeletedFileIsStillListed(cfg: Config, root: string, obj: string, bagName: string, before: Work, fetched: Disk,
                                 texts: Texts, now: nat, order: seq<string>, i: nat)
    requires RootIsClean(root, obj) && '/' !in bagName && ProfileFits(cfg) && IsDigest(cfg.hash) && now > 0
    requires Restorable(obj, before.files) && Leftovers(obj, before.disk) && IsFetched(cfg.hash, before, fetched)
    requires Enumerates(order, Completed(cfg.hash, obj, Work(before.files, fetched), texts, now).disk.Keys)
    requires i < |before.files| && before.files[i].Path() !in before.disk && !IsGeneratedName(before.files[i].Path())
    requires forall j :: 0 <= j < |before.files| && before.files[j].Path() == before.files[i].Path() ==>
               before.files[j].state.Deleted?
    ensures var disk := Completed(cfg.hash, obj, Work(before.files, fetched), texts, now).disk;
            !ValidBag(cfg, TarItems(root, obj, bagName, disk, order), bagName)
  {
    RestoreVerdict(cfg, root, obj, bagName, before, fetched, texts, now, order);
    var p := before.files[i].Path();
    assert !IsVisitedPath(before.files, p);
    LastRecordIs(before.files, i);
    assert p !in fetched;
    assert !Matches(cfg.hash, LastRecord(before.files, p).value, fetched);
  }

  /** A validator on an archive that can be read. */
  method JudgeArchive(cfg: Config, obj: string, bagName: string, items: seq<Item>) returns (clean: bool)
    requires Readable(items)
    ensures clean <==> ValidBag(cfg, items, bagName)
  {
    var validator := new Validator(obj, cfg);
    var ended := validator.Validate(items, bagName, true, true, |items| + 1);
    clean := |validator.summary.errors| == 0;
  }

  /** Packaging followed by validation, as two stages of the restorer. A file that was kept
      only because its size is right, but whose bytes are wrong, fails the validation. */
  method PackageAndValidate(cfg: Config, obj: string, bagName: string, root: string, files: seq<GenericFile>,
                            disk: Disk, prepared: bool, downloads: seq<Download>, texts: Texts, now: nat)
    returns (built: bool, clean: bool, ghost fetched: Disk)
    requires RootIsClean(root, obj) && '/' !in bagName && ProfileFits(cfg) && IsDigest(cfg.hash) && now > 0
    requires Restorable(obj, files) && Leftovers(obj, disk) && |downloads| == |files|
    ensures built <==> CanBuild(cfg.hash, obj, Work(files, disk), prepared, downloads, texts, now)
    ensures built ==> fetched == FetchFrom(cfg.hash, files, downloads, disk).disk
    ensures built ==>
              (clean <==> && OriginalsMatch(cfg.hash, files, fetched) && NoStrayPayload(files, fetched)
                          && ProfileOk(cfg, Completed(cfg.hash, obj, Work(files, fetched), texts, now).disk))
    ensures clean ==> built
  {
    clean := false;
    var packager := new Packager(obj, bagName, root, cfg.hash, files, disk);
    var items;
    ghost var order;
    built, items, fetched, order := packager.BuildBag(prepared, downloads, texts, now);
    if built {
      RestoreVerdict(cfg, root, obj, bagName, Work(files, disk), fetched, texts, now, order);
      clean := JudgeArchive(cfg, obj, bagName, items);
    }
  }
}
