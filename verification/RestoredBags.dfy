/** What the validator makes of a bag that the restorer has packaged. */
module RestoredBags {
  import opened Collections
  import opened Options
  import opened Text
  import opened TarFiles
  import opened Manifests
  import opened Tags
  import opened Bags
  import opened Packaging
  import opened Packagers

  // ----- the four manifest names -----

  lemma OccurrenceHolds(s: string, sub: string, k: nat)
    requires k < |sub|
    ensures Contains(s, sub) ==> sub[k] in s
  {
    var i := IndexFrom(s, sub, 0);
    assert i >= 0 ==> s[i..i + |sub|][k] == s[i + k];
  }

  lemma ManifestTypeIsRead(kind: ManifestType, alg: Algorithm)
    ensures FileTypeOf(ManifestName(kind, alg)) == if kind.Payload? then PayloadManifest else TagManifest
  {
    match (kind, alg)
    case (Payload, Md5) => assert "manifest-md5.txt"[0] == 'm' && "manifest-md5.txt"[..9] == "manifest-";
    case (Payload, Sha256) => assert "manifest-sha256.txt"[0] == 'm' && "manifest-sha256.txt"[..9] == "manifest-";
    case (Tag, Md5) => assert "tagmanifest-md5.txt"[..12] == "tagmanifest-";
    case (Tag, Sha256) => assert "tagmanifest-sha256.txt"[..12] == "tagmanifest-";
  }

  lemma ContainsMiddle(a: string, sub: string, b: string)
    ensures Contains(a + sub + b, sub)
  {
    assert (a + sub + b)[|a|..|a| + |sub|] == sub;
    assert OccursAt(a + sub + b, sub, |a|);
  }

  lemma Md5Between(a: string, b: string)
    requires 'h' !in a && 'h' !in b
    ensures AlgorithmOf(a + "md5" + b) == Some(Md5)
  {
    ContainsMiddle(a, "md5", b);
    OccurrenceHolds(a + "md5" + b, "sha256", 1);
    assert 'h' !in "md5";
  }

  lemma Md5IsRead(kind: ManifestType)
    ensures AlgorithmOf(ManifestName(kind, Md5)) == Some(Md5)
  {
    if kind.Payload? {
      Md5Between("manifest-", ".txt");
      assert "manifest-md5.txt" == "manifest-" + "md5" + ".txt";
    } else {
      Md5Between("tagmanifest-", ".txt");
      assert "tagmanifest-md5.txt" == "tagmanifest-" + "md5" + ".txt";
    }
  }

  lemma Sha256Between(a: string, b: string)
    ensures AlgorithmOf(a + "sha256" + b) == Some(Sha256)
  {
    ContainsMiddle(a, "sha256", b);
  }

  lemma Sha256IsRead(kind: ManifestType)
    ensures AlgorithmOf(ManifestName(kind, Sha256)) == Some(Sha256)
  {
    if kind.Payload? {
      Sha256Between("manifest-", ".txt");
      assert "manifest-sha256.txt" == "manifest-" + "sha256" + ".txt";
    } else {
      Sha256Between("tagmanifest-", ".txt");
      assert "tagmanifest-sha256.txt" == "tagmanifest-" + "sha256" + ".txt";
    }
  }

  /** The validator takes each of the four for a manifest of its kind and algorithm. */
  lemma ManifestNamesAreRead(kind: ManifestType, alg: Algorithm)
    ensures IsManifestName(ManifestName(kind, alg))
    ensures kind.Payload? ==> FileTypeOf(ManifestName(kind, alg)).PayloadManifest?
    ensures AlgorithmOf(ManifestName(kind, alg)) == Some(alg)
  {
    ManifestTypeIsRead(kind, alg);
    match alg
    case Md5 => Md5IsRead(kind);
    case Sha256 => Sha256IsRead(kind);
  }

  // ----- the archive -----

  predicate TarReady(root: string, obj: string, bagName: string, disk: Disk) {
    && RootIsClean(root, obj) && |obj| > 0 && '/' !in bagName
    && forall p :: p in disk ==> |p| > 0 && p[|p| - 1] != '/' && !Contains("/" + p, obj)
  }

  lemma TarItemNames(root: string, obj: string, bagName: string, disk: Disk, order: seq<string>, i: nat)
    requires TarReady(root, obj, bagName, disk) && Enumerates(order, disk.Keys) && i < |order|
    ensures var item := TarItems(root, obj, bagName, disk, order)[i];
            TopDir(item.name) == bagName && RelPath(item.name) == order[i]
  {
    assert order[i] in disk;
    ArchiveNameKeepsPath(root, obj, bagName, order[i]);
    SplitAfterHead(bagName, order[i]);
  }

  lemma DiskFileIsInTar(root: string, obj: string, bagName: string, disk: Disk, order: seq<string>, p: string)
    requires TarReady(root, obj, bagName, disk) && Enumerates(order, disk.Keys) && p in disk
    ensures p in Contents(TarItems(root, obj, bagName, disk, order))
  {
    var i :| 0 <= i < |order| && order[i] == p;
    TarItemNames(root, obj, bagName, disk, order, i);
    EveryFileIsInContents(TarItems(root, obj, bagName, disk, order), i);
  }

  lemma TarFileIsOnDisk(root: string, obj: string, bagName: string, disk: Disk, order: seq<string>, p: string)
    requires TarReady(root, obj, bagName, disk) && Enumerates(order, disk.Keys)
    requires p in Contents(TarItems(root, obj, bagName, disk, order))
    ensures p in disk && Contents(TarItems(root, obj, bagName, disk, order))[p] == disk[p]
  {
    var i := ContentsIsLastEntry(TarItems(root, obj, bagName, disk, order), p);
    TarItemNames(root, obj, bagName, disk, order, i);
  }

  lemma ContentsOfTar(root: string, obj: string, bagName: string, disk: Disk, order: seq<string>)
    requires TarReady(root, obj, bagName, disk) && Enumerates(order, disk.Keys)
    ensures Contents(TarItems(root, obj, bagName, disk, order)) == disk
  {
    var c := Contents(TarItems(root, obj, bagName, disk, order));
    forall p | p in disk ensures p in c {
      DiskFileIsInTar(root, obj, bagName, disk, order, p);
    }
    forall p | p in c ensures p in disk && c[p] == disk[p] {
      TarFileIsOnDisk(root, obj, bagName, disk, order, p);
    }
    SameMap(c, disk);
  }

  lemma TarIsPlain(cfg: Config, root: string, obj: string, bagName: string, disk: Disk, order: seq<string>)
    requires TarReady(root, obj, bagName, disk) && Enumerates(order, disk.Keys)
    ensures var items := TarItems(root, obj, bagName, disk, order);
            Readable(items) && EntriesAreFiles(items, disk.Keys) && OneFolder(items, bagName)
  {
    forall i | 0 <= i < |order| {
      TarItemNames(root, obj, bagName, disk, order, i);
    }
  }

  // ----- the listings -----

  /** The record `f` puts the line `l` into its manifest. */
  predicate ListsAs(f: GenericFile, l: Listing) {
    f.Path() != BAGIT && l.path == f.Path() && l.digest == f.Digest(l.alg)
  }

  predicate IsListed(files: seq<GenericFile>, l: Listing) {
    exists i :: 0 <= i < |files| && ListsAs(files[i], l)
  }

  predicate PrintableFiles(files: seq<GenericFile>) {
    forall i, alg :: 0 <= i < |files| && files[i].Path() != BAGIT ==>
      Printable(Entry(files[i].Digest(alg), files[i].Path()))
  }

  /** No file on disk but the four manifests goes by a manifest's name, and none of the four
      is parsed as a tag file. */
  predicate OnlyOurManifests(cfg: Config, disk: Disk) {
    && (forall p :: p in disk && IsManifestName(p) ==> IsManifestFile(p))
    && (forall kind, alg :: !cfg.IsTagFile(ManifestName(kind, alg)))
  }

  lemma {:induction false} ListingsAre(cfg: Config, items: seq<Item>, l: Listing)
    ensures l in Listings(cfg, items) <==> exists i :: 0 <= i < |items| && l in ListingsIn(cfg, items[i])
  {
    if |items| > 0 {
      ListingsAre(cfg, items[1..], l);
      assert forall i :: 0 < i < |items| ==> items[1..][i - 1] == items[i];
      if l in ListingsIn(cfg, items[0]) {
        assert l in Listings(cfg, items);
      }
    }
  }

  lemma ManifestParses(files: seq<GenericFile>, kind: ManifestType, alg: Algorithm)
    requires PrintableFiles(files)
    ensures Parse(Print(Entries(files, kind, alg))) == Entries(files, kind, alg)
  {
    var es := Entries(files, kind, alg);
    forall e | e in es ensures Printable(e) {
      EntriesAre(files, kind, alg, e);
      var i :| 0 <= i < |files| && Belongs(files[i].Path(), kind) && e == Entry(files[i].Digest(alg), files[i].Path());
      assert files[i].Path() != BAGIT;
    }
    ManifestRoundTrip(es);
  }

  lemma ListingsFromManifest(files: seq<GenericFile>, kind: ManifestType, alg: Algorithm, l: Listing)
    ensures l in ToListings(alg, Entries(files, kind, alg)) <==>
            l.alg == alg && exists i :: 0 <= i < |files| && Belongs(files[i].Path(), kind) && ListsAs(files[i], l)
  {
    var es, e := Entries(files, kind, alg), Entry(l.digest, l.path);
    EntriesAre(files, kind, alg, e);
    var ls := ToListings(alg, es);
    if l in ls {
      var k :| 0 <= k < |ls| && ls[k] == l;
      assert es[k] == e;
      assert e in es;
      var i :| 0 <= i < |files| && Belongs(files[i].Path(), kind) && e == Entry(files[i].Digest(alg), files[i].Path());
      assert ListsAs(files[i], l);
    }
    if l.alg == alg && exists i :: 0 <= i < |files| && Belongs(files[i].Path(), kind) && ListsAs(files[i], l) {
      var i :| 0 <= i < |files| && Belongs(files[i].Path(), kind) && ListsAs(files[i], l);
      assert e == Entry(files[i].Digest(alg), files[i].Path());
      var k :| 0 <= k < |es| && es[k] == e;
      assert ls[k] == l;
    }
  }

  lemma ManifestItem(cfg: Config, files: seq<GenericFile>, disk: Disk, item: Item, kind: ManifestType, alg: Algorithm)
    requires WellPackaged(files, disk) && PrintableFiles(files) && OnlyOurManifests(cfg, disk)
    requires item.Header? && item.kind.Regular? && RelPath(item.name) == ManifestName(kind, alg)
    requires item.content == disk[ManifestName(kind, alg)]
    ensures ListingsIn(cfg, item) == ToListings(alg, Entries(files, kind, alg))
  {
    ManifestNamesAreRead(kind, alg);
    ManifestParses(files, kind, alg);
  }

  lemma ListingComesFromFile(cfg: Config, root: string, obj: string, bagName: string, files: seq<GenericFile>,
                             disk: Disk, order: seq<string>, i: nat, l: Listing)
    requires TarReady(root, obj, bagName, disk) && Enumerates(order, disk.Keys) && i < |order|
    requires WellPackaged(files, disk) && PrintableFiles(files) && OnlyOurManifests(cfg, disk)
    requires l in ListingsIn(cfg, TarItems(root, obj, bagName, disk, order)[i])
    ensures IsListed(files, l)
  {
    var item := TarItems(root, obj, bagName, disk, order)[i];
    TarItemNames(root, obj, bagName, disk, order, i);
    assert order[i] in disk && IsManifestName(order[i]);
    var kind, alg :| order[i] == ManifestName(kind, alg);
    ManifestItem(cfg, files, disk, item, kind, alg);
    ListingsFromManifest(files, kind, alg, l);
  }

  lemma FileIsListed(cfg: Config, root: string, obj: string, bagName: string, files: seq<GenericFile>, disk: Disk,
                     order: seq<string>, l: Listing) returns (i: nat)
    requires TarReady(root, obj, bagName, disk) && Enumerates(order, disk.Keys)
    requires WellPackaged(files, disk) && PrintableFiles(files) && OnlyOurManifests(cfg, disk)
    requires IsListed(files, l)
    ensures i < |order| && l in ListingsIn(cfg, TarItems(root, obj, bagName, disk, order)[i])
  {
    var k :| 0 <= k < |files| && ListsAs(files[k], l);
    var kind := if "data/" <= files[k].Path() then Payload else Tag;
    assert Belongs(files[k].Path(), kind);
    var name := ManifestName(kind, l.alg);
    assert name in disk.Keys && name in order;
    i :| 0 <= i < |order| && order[i] == name;
    TarItemNames(root, obj, bagName, disk, order, i);
    ManifestItem(cfg, files, disk, TarItems(root, obj, bagName, disk, order)[i], kind, l.alg);
    ListingsFromManifest(files, kind, l.alg, l);
  }

  /** The lines of all manifests together are those of the recorded files, bagit.txt aside. */
  lemma ListingsOfTar(cfg: Config, root: string, obj: string, bagName: string, files: seq<GenericFile>, disk: Disk,
                      order: seq<string>, l: Listing)
    requires TarReady(root, obj, bagName, disk) && Enumerates(order, disk.Keys)
    requires WellPackaged(files, disk) && PrintableFiles(files) && OnlyOurManifests(cfg, disk)
    ensures l in Listings(cfg, TarItems(root, obj, bagName, disk, order)) <==> IsListed(files, l)
  {
    var items := TarItems(root, obj, bagName, disk, order);
    ListingsAre(cfg, items, l);
    if l in Listings(cfg, items) {
      var i :| 0 <= i < |items| && l in ListingsIn(cfg, items[i]);
      ListingComesFromFile(cfg, root, obj, bagName, files, disk, order, i, l);
    }
    if IsListed(files, l) {
      var i := FileIsListed(cfg, root, obj, bagName, files, disk, order, l);
    }
  }

  // ----- the digest listed last -----

  /** The digest of the record that decides for a path. bagit.txt is never listed. */
  function RecordedDigest(files: seq<GenericFile>, path: string, alg: Algorithm): string {
    if path == BAGIT || LastRecord(files, path).None? then "" else LastRecord(files, path).value.Digest(alg)
  }

  lemma {:induction false} EntriesOfLast(files: seq<GenericFile>, f: GenericFile, kind: ManifestType, alg: Algorithm)
    ensures Entries(files + [f], kind, alg) ==
            Entries(files, kind, alg) + if Belongs(f.Path(), kind) then [Entry(f.Digest(alg), f.Path())] else []
    decreases |files|
  {
    if |files| == 0 {
      assert (files + [f])[1..] == [];
      Nothing(Entries([f], kind, alg));
    } else {
      assert (files + [f])[0] == files[0] && (files + [f])[1..] == files[1..] + [f];
      EntriesOfLast(files[1..], f, kind, alg);
      var last := if Belongs(f.Path(), kind) then [Entry(f.Digest(alg), f.Path())] else [];
      Assoc([Entry(files[0].Digest(alg), files[0].Path())], Entries(files[1..], kind, alg), last);
    }
  }

  lemma ListingsOfLast(alg: Algorithm, es: seq<Entry>, e: Entry)
    ensures ToListings(alg, es + [e]) == ToListings(alg, es) + [Listing(alg, e.digest, e.path)]
  {
  }

  lemma RecordedAfter(files: seq<GenericFile>, f: GenericFile, path: string, alg: Algorithm)
    ensures RecordedDigest(files + [f], path, alg) ==
            if f.Path() == path && path != BAGIT then f.Digest(alg) else RecordedDigest(files, path, alg)
  {
    LastOfAppend(files, f, path);
  }

  lemma ListedAfter(files: seq<GenericFile>, f: GenericFile, kind: ManifestType, alg: Algorithm, path: string)
    ensures LastDigest(ToListings(alg, Entries(files + [f], kind, alg)), alg, path) ==
            if Belongs(f.Path(), kind) && f.Path() == path then f.Digest(alg)
            else LastDigest(ToListings(alg, Entries(files, kind, alg)), alg, path)
  {
    var es := Entries(files, kind, alg);
    EntriesOfLast(files, f, kind, alg);
    if Belongs(f.Path(), kind) {
      ListingsOfLast(alg, es, Entry(f.Digest(alg), f.Path()));
      LastDigestAfter(ToListings(alg, es), Listing(alg, f.Digest(alg), f.Path()), alg, path);
    } else {
      Nothing(es);
    }
  }

  /** In its manifest, the digest listed last for a path is that of its last record. */
  lemma {:induction false} ManifestLastDigest(files: seq<GenericFile>, kind: ManifestType, alg: Algorithm, path: string)
    ensures LastDigest(ToListings(alg, Entries(files, kind, alg)), alg, path) ==
            if Belongs(path, kind) then RecordedDigest(files, path, alg) else ""
    decreases |files|
  {
    if |files| > 0 {
      var n := |files| - 1;
      PrefixStep(files, n);
      Whole(files);
      ManifestLastDigest(files[..n], kind, alg, path);
      RecordedAfter(files[..n], files[n], path, alg);
      ListedAfter(files[..n], files[n], kind, alg, path);
    }
  }

  lemma ListsPathIs(ls: seq<Listing>, alg: Algorithm, path: string)
    ensures ListsPath(ls, alg, path) <==> exists l :: l in ls && l.alg == alg && l.path == path
  {
    if l :| l in ls && l.alg == alg && l.path == path {
      var i :| 0 <= i < |ls| && ls[i] == l;
    }
  }

  lemma RestLists(cfg: Config, items: seq<Item>, alg: Algorithm, path: string)
    requires forall j :: 0 <= j < |items| ==> !ListsPath(ListingsIn(cfg, items[j]), alg, path)
    ensures !ListsPath(Listings(cfg, items), alg, path)
  {
    ListsPathIs(Listings(cfg, items), alg, path);
    forall l | l in Listings(cfg, items) ensures l.alg != alg || l.path != path {
      ListingsAre(cfg, items, l);
      var i :| 0 <= i < |items| && l in ListingsIn(cfg, items[i]);
      ListsPathIs(ListingsIn(cfg, items[i]), alg, path);
    }
  }

  /** If only one entry of the archive can list a path, it decides. */
  lemma {:induction false} OnlyItemDecides(cfg: Config, items: seq<Item>, k: nat, alg: Algorithm, path: string)
    requires k < |items| && forall j :: 0 <= j < |items| && j != k ==> !ListsPath(ListingsIn(cfg, items[j]), alg, path)
    ensures LastDigest(Listings(cfg, items), alg, path) == LastDigest(ListingsIn(cfg, items[k]), alg, path)
    decreases |items|
  {
    var here, rest := ListingsIn(cfg, items[0]), Listings(cfg, items[1..]);
    LastDigestOfTwo(here, rest, alg, path);
    if k == 0 {
      RestLists(cfg, items[1..], alg, path);
    } else {
      OnlyItemDecides(cfg, items[1..], k - 1, alg, path);
      UnlistedHasNoDigest(here, alg, path);
      UnlistedHasNoDigest(rest, alg, path);
    }
  }

  lemma OtherManifestsDoNotList(files: seq<GenericFile>, kind: ManifestType, alg: Algorithm, other: Algorithm,
                                path: string)
    requires other != alg || !Belongs(path, kind)
    ensures !ListsPath(ToListings(alg, Entries(files, kind, alg)), other, path)
  {
    var ls := ToListings(alg, Entries(files, kind, alg));
    ListsPathIs(ls, other, path);
    forall l | l in ls ensures l.alg != other || l.path != path {
      ListingsFromManifest(files, kind, alg, l);
    }
  }

  lemma OtherItemDoesNotList(cfg: Config, root: string, obj: string, bagName: string, files: seq<GenericFile>,
                             disk: Disk, order: seq<string>, kind: ManifestType, alg: Algorithm, path: string, j: nat)
    requires TarReady(root, obj, bagName, disk) && Enumerates(order, disk.Keys)
    requires WellPackaged(files, disk) && PrintableFiles(files) && OnlyOurManifests(cfg, disk)
    requires Belongs(path, kind) && j < |order| && order[j] != ManifestName(kind, alg)
    ensures !ListsPath(ListingsIn(cfg, TarItems(root, obj, bagName, disk, order)[j]), alg, path)
  {
    var item := TarItems(root, obj, bagName, disk, order)[j];
    TarItemNames(root, obj, bagName, disk, order, j);
    if IsManifestName(order[j]) {
      assert order[j] in disk;
      var kind', alg' :| order[j] == ManifestName(kind', alg');
      ManifestItem(cfg, files, disk, item, kind', alg');
      ExactlyOneManifest(path);
      OtherManifestsDoNotList(files, kind', alg', alg, path);
    }
  }

  /** The digest listed last for a file, over all manifests, is that of its last record. */
  lemma TarLastDigest(cfg: Config, root: string, obj: string, bagName: string, files: seq<GenericFile>, disk: Disk,
                      order: seq<string>, alg: Algorithm, path: string)
    requires TarReady(root, obj, bagName, disk) && Enumerates(order, disk.Keys)
    requires WellPackaged(files, disk) && PrintableFiles(files) && OnlyOurManifests(cfg, disk)
    ensures LastDigest(Listings(cfg, TarItems(root, obj, bagName, disk, order)), alg, path) ==
            RecordedDigest(files, path, alg)
  {
    var items := TarItems(root, obj, bagName, disk, order);
    var ls := Listings(cfg, items);
    if path == BAGIT {
      ListsPathIs(ls, alg, path);
      forall l | l in ls ensures l.path != BAGIT {
        ListingsOfTar(cfg, root, obj, bagName, files, disk, order, l);
      }
      UnlistedHasNoDigest(ls, alg, path);
    } else {
      ExactlyOneManifest(path);
      var kind := if "data/" <= path then Payload else Tag;
      var name := ManifestName(kind, alg);
      assert name in disk.Keys && name in order;
      var k :| 0 <= k < |order| && order[k] == name;
      TarItemNames(root, obj, bagName, disk, order, k);
      ManifestItem(cfg, files, disk, items[k], kind, alg);
      forall j | 0 <= j < |items| && j != k ensures !ListsPath(ListingsIn(cfg, items[j]), alg, path) {
        assert order[j] != name;
        OtherItemDoesNotList(cfg, root, obj, bagName, files, disk, order, kind, alg, path, j);
      }
      OnlyItemDecides(cfg, items, k, alg, path);
      ManifestLastDigest(files, kind, alg, path);
    }
  }

  // ----- the tags -----

  ghost predicate IsDiskTag(cfg: Config, disk: Disk, t: TagLine) {
    exists p :: p in disk && cfg.IsTagFile(p) && t in ParseTags(disk[p])
  }

  lemma {:induction false} TagsAre(cfg: Config, items: seq<Item>, t: TagLine)
    ensures t in TagsOf(cfg, items) <==> exists i :: 0 <= i < |items| && t in TagsIn(cfg, items[i])
  {
    if |items| > 0 {
      TagsAre(cfg, items[1..], t);
      assert forall i :: 0 < i < |items| ==> items[1..][i - 1] == items[i];
      if t in TagsIn(cfg, items[0]) {
        assert t in TagsOf(cfg, items);
      }
    }
  }

  lemma TarTags(cfg: Config, root: string, obj: string, bagName: string, disk: Disk, order: seq<string>, i: nat)
    requires TarReady(root, obj, bagName, disk) && Enumerates(order, disk.Keys) && i < |order|
    ensures TagsIn(cfg, TarItems(root, obj, bagName, disk, order)[i]) ==
            if cfg.IsTagFile(order[i]) then ParseTags(disk[order[i]]) else []
  {
    TarItemNames(root, obj, bagName, disk, order, i);
  }

  lemma TagOfTar(cfg: Config, root: string, obj: string, bagName: string, disk: Disk, order: seq<string>, t: TagLine)
    requires TarReady(root, obj, bagName, disk) && Enumerates(order, disk.Keys)
    ensures t in TagsOf(cfg, TarItems(root, obj, bagName, disk, order)) <==> IsDiskTag(cfg, disk, t)
  {
    var items := TarItems(root, obj, bagName, disk, order);
    TagsAre(cfg, items, t);
    if i :| 0 <= i < |items| && t in TagsIn(cfg, items[i]) {
      TarTags(cfg, root, obj, bagName, disk, order, i);
      assert order[i] in disk;
    }
    if p :| p in disk && cfg.IsTagFile(p) && t in ParseTags(disk[p]) {
      assert p in order;
      var i :| 0 <= i < |order| && order[i] == p;
      TarTags(cfg, root, obj, bagName, disk, order, i);
    }
  }

  ghost function DiskTags(cfg: Config, disk: Disk): iset<TagLine> {
    iset t | IsDiskTag(cfg, disk, t)
  }

  /** The tag files on disk can be read and their tags meet the profile. */
  ghost predicate DiskTagsOk(cfg: Config, disk: Disk) {
    && (forall p :: p in disk && cfg.IsTagFile(p) ==> !ScanFails(disk[p]))
    && TagsOk(DiskTags(cfg, disk), cfg.tagSpecs, cfg.fold)
  }

  lemma TagFilesOfTar(cfg: Config, root: string, obj: string, bagName: string, disk: Disk, order: seq<string>)
    requires TarReady(root, obj, bagName, disk) && Enumerates(order, disk.Keys)
    ensures TagFilesRead(cfg, TarItems(root, obj, bagName, disk, order)) <==>
            forall p :: p in disk && cfg.IsTagFile(p) ==> !ScanFails(disk[p])
  {
    var items := TarItems(root, obj, bagName, disk, order);
    forall i | 0 <= i < |items| ensures RelPath(items[i].name) == order[i] && items[i].content == disk[order[i]] {
      TarItemNames(root, obj, bagName, disk, order, i);
    }
    if TagFilesRead(cfg, items) {
      forall p | p in disk && cfg.IsTagFile(p) ensures !ScanFails(disk[p]) {
        assert p in order;
        var i :| 0 <= i < |order| && order[i] == p;
        assert IsTagEntry(cfg, items[i]);
      }
    }
  }

  lemma TagsOfTar(cfg: Config, root: string, obj: string, bagName: string, disk: Disk, order: seq<string>)
    requires TarReady(root, obj, bagName, disk) && Enumerates(order, disk.Keys)
    ensures var items := TarItems(root, obj, bagName, disk, order);
            (TagFilesRead(cfg, items) && TagsOk(TagSet(TagsOf(cfg, items)), cfg.tagSpecs, cfg.fold)) <==>
            DiskTagsOk(cfg, disk)
  {
    var items := TarItems(root, obj, bagName, disk, order);
    forall t ensures t in TagsOf(cfg, items) <==> IsDiskTag(cfg, disk, t) {
      TagOfTar(cfg, root, obj, bagName, disk, order, t);
    }
    assert TagSet(TagsOf(cfg, items)) == DiskTags(cfg, disk);
    TagFilesOfTar(cfg, root, obj, bagName, disk, order);
  }

  // ----- the verdict -----

  /** For every path, the record that decides is of a file on disk with the bytes its latest
      checksums say. */
  ghost predicate AllMatch(hash: (Algorithm, string) -> string, files: seq<GenericFile>, disk: Disk) {
    forall p :: p != BAGIT && LastRecord(files, p).Some? ==> Matches(hash, LastRecord(files, p).value, disk)
  }

  predicate HasRecord(files: seq<GenericFile>, path: string) {
    RecordedDigest(files, path, Md5) != "" || RecordedDigest(files, path, Sha256) != ""
  }

  /** Every payload file on disk has a record with a digest. */
  predicate NoStrayPayload(files: seq<GenericFile>, disk: Disk) {
    forall p :: p in disk && "data/" <= p ==> HasRecord(files, p)
  }

  /** The conditions of the profile that do not concern digests. */
  ghost predicate ProfileOk(cfg: Config, disk: Disk) {
    && ("fetch.txt" in disk ==> cfg.allowFetchTxt)
    && (forall p :: p in disk ==> cfg.NameOk(p))
    && SpecsOk(cfg, disk)
    && DiskTagsOk(cfg, disk)
  }

  /** The lines of all manifests are those of the records, and the last record decides. */
  ghost predicate ListsRecords(ls: seq<Listing>, files: seq<GenericFile>) {
    && (forall l :: l in ls <==> IsListed(files, l))
    && (forall p, alg :: LastDigest(ls, alg, p) == RecordedDigest(files, p, alg))
  }

  lemma LastRecordIs(files: seq<GenericFile>, k: nat)
    requires k < |files|
    ensures LastRecord(files, files[k].Path()).Some? &&
            LastRecord(files, files[k].Path()).value.Path() == files[k].Path()
  {
  }

  lemma FileOkIffMatched(cfg: Config, ls: seq<Listing>, files: seq<GenericFile>, disk: Disk, p: string)
    requires cfg.fixity == {Md5, Sha256} && p in disk && ListsRecords(ls, files)
    ensures FileOk(cfg, ls, p, disk[p]) <==>
            && (p != BAGIT && LastRecord(files, p).Some? ==> Matches(cfg.hash, LastRecord(files, p).value, disk))
            && ("data/" <= p ==> HasRecord(files, p)) && (p == "fetch.txt" ==> cfg.allowFetchTxt) && cfg.NameOk(p)
  {
    assert LastDigest(ls, Md5, p) == RecordedDigest(files, p, Md5);
    assert LastDigest(ls, Sha256, p) == RecordedDigest(files, p, Sha256);
  }

  lemma ListedExistIffRecorded(ls: seq<Listing>, files: seq<GenericFile>, disk: Disk)
    requires ListsRecords(ls, files)
    ensures ListedFilesExist(ls, disk.Keys) <==> forall p :: p != BAGIT && LastRecord(files, p).Some? ==> p in disk
  {
    if ListedFilesExist(ls, disk.Keys) {
      forall p | p != BAGIT && LastRecord(files, p).Some? ensures p in disk {
        var f := LastRecord(files, p).value;
        var l := Listing(Md5, f.Digest(Md5), p);
        assert ListsAs(f, l) && f == files[LastWith(files, p)];
        assert l in ls;
      }
    }
    if forall p :: p != BAGIT && LastRecord(files, p).Some? ==> p in disk {
      forall i | 0 <= i < |ls| ensures ls[i].path in disk {
        assert ls[i] in ls;
        var k :| 0 <= k < |files| && ListsAs(files[k], ls[i]);
        LastRecordIs(files, k);
      }
    }
  }

  lemma FilesVerdict(cfg: Config, ls: seq<Listing>, files: seq<GenericFile>, disk: Disk)
    requires cfg.fixity == {Md5, Sha256} && ListsRecords(ls, files)
    ensures (ListedFilesExist(ls, disk.Keys) && FilesOk(cfg, ls, disk) && SpecsOk(cfg, disk) &&
             DiskTagsOk(cfg, disk)) <==>
            (AllMatch(cfg.hash, files, disk) && NoStrayPayload(files, disk) && ProfileOk(cfg, disk))
  {
    ListedExistIffRecorded(ls, files, disk);
    forall p | p in disk
      ensures FileOk(cfg, ls, p, disk[p]) <==>
              && (p != BAGIT && LastRecord(files, p).Some? ==> Matches(cfg.hash, LastRecord(files, p).value, disk))
              && ("data/" <= p ==> HasRecord(files, p)) && (p == "fetch.txt" ==> cfg.allowFetchTxt) && cfg.NameOk(p)
    {
      FileOkIffMatched(cfg, ls, files, disk, p);
    }
    if ListedFilesExist(ls, disk.Keys) && FilesOk(cfg, ls, disk) {
      forall p | p in disk
        ensures cfg.NameOk(p) && (p == "fetch.txt" ==> cfg.allowFetchTxt) && ("data/" <= p ==> HasRecord(files, p)) {
        assert FileOk(cfg, ls, p, disk[p]);
      }
      forall p | p != BAGIT && LastRecord(files, p).Some? ensures Matches(cfg.hash, LastRecord(files, p).value, disk) {
        assert FileOk(cfg, ls, p, disk[p]);
      }
    }
  }

  /** A packaged bag validates exactly when every recorded file is on disk with the bytes of
      its latest checksums, no payload file is there without a record, and the profile is met.
      Of several records of one path the last decides. */
  lemma PackagedBagVerdict(cfg: Config, root: string, obj: string, bagName: string, files: seq<GenericFile>, disk: Disk,
                           order: seq<string>)
    requires TarReady(root, obj, bagName, disk) && Enumerates(order, disk.Keys)
    requires WellPackaged(files, disk) && PrintableFiles(files) && OnlyOurManifests(cfg, disk)
    requires cfg.fixity == {Md5, Sha256}
    ensures ValidBag(cfg, TarItems(root, obj, bagName, disk, order), bagName) <==>
            AllMatch(cfg.hash, files, disk) && NoStrayPayload(files, disk) && ProfileOk(cfg, disk)
  {
    var items := TarItems(root, obj, bagName, disk, order);
    var ls := Listings(cfg, items);
    ContentsOfTar(root, obj, bagName, disk, order);
    TarIsPlain(cfg, root, obj, bagName, disk, order);
    TagsOfTar(cfg, root, obj, bagName, disk, order);
    forall l ensures l in ls <==> IsListed(files, l) {
      ListingsOfTar(cfg, root, obj, bagName, files, disk, order, l);
    }
    forall p, alg ensures LastDigest(ls, alg, p) == RecordedDigest(files, p, alg) {
      TarLastDigest(cfg, root, obj, bagName, files, disk, order, alg, p);
    }
    FilesVerdict(cfg, ls, files, disk);
    assert HasPayloadManifest(disk) by {
      ManifestNamesAreRead(Payload, Md5);
      assert ManifestName(Payload, Md5) in disk;
    }
  }
}
