/** What makes a tarred bag acceptable, said in terms of its entries alone. The validator
    (Validator.dfy) decides this with a database that it rewrites line by line. */
module Bags {
  import opened Collections
  import opened Options
  import opened Text
  import opened TarFiles
  import opened Manifests
  import opened Tags

  datatype Algorithm = Md5 | Sha256

  datatype Presence = Required | Optional | Forbidden

  datatype FileSpec = FileSpec(presence: Presence, parseAsTagFile: bool)

  datatype FileType = PayloadFile | PayloadManifest | TagManifest | TagFile

  /** A bag validation config. The digest algorithms, the file-name patterns and the folding
      of tag values to lower case are functions of the configuration. */
  datatype Config = Config(
    fileSpecs: map<string, FileSpec>,
    allowFetchTxt: bool,
    fixity: set<Algorithm>,
    hash: (Algorithm, string) -> string,
    hasControl: string -> bool,
    componentOk: string -> bool,
    tagSpecs: map<string, TagSpec>,
    fold: string -> string)
  {
    function Computed(alg: Algorithm, content: string): string {
      if alg in fixity then hash(alg, content) else ""
    }

    predicate NameOk(path: string) {
      !hasControl(path) && forall c :: c in Split(path) ==> componentOk(c)
    }

    predicate IsTagFile(path: string) {
      path in fileSpecs && fileSpecs[path].parseAsTagFile
    }

    predicate Demands(path: string, presence: Presence) {
      path in fileSpecs && fileSpecs[path].presence == presence
    }
  }

  function FileTypeOf(path: string): FileType {
    if "tagmanifest-" <= path then TagManifest
    else if "manifest-" <= path then PayloadManifest
    else if "data/" <= path then PayloadFile
    else TagFile
  }

  predicate IsManifestName(path: string) {
    FileTypeOf(path).TagManifest? || FileTypeOf(path).PayloadManifest?
  }

  function AlgorithmOf(path: string): Option<Algorithm> {
    if Contains(path, "sha256") then Some(Sha256)
    else if Contains(path, "md5") then Some(Md5)
    else None
  }

  /** A digest that some manifest of the bag gives for a path. */
  datatype Listing = Listing(alg: Algorithm, digest: string, path: string)

  function ToListings(alg: Algorithm, es: seq<Entry>): seq<Listing> {
    seq(|es|, i requires 0 <= i < |es| => Listing(alg, es[i].digest, es[i].path))
  }

  /** The file that one archive item adds to the bag. */
  function FileIn(item: Item): map<string, string> {
    if item.Header? && item.kind.Regular? then map[RelPath(item.name) := item.content] else map[]
  }

  /** The files of the bag. A later entry of the same name replaces an earlier one. */
  function Contents(items: seq<Item>): map<string, string> {
    if |items| == 0 then map[] else FileIn(items[0]) + Contents(items[1..])
  }

  function ListingsIn(cfg: Config, item: Item): seq<Listing> {
    if item.Unreadable? || item.kind.Directory? then []
    else
      var path := RelPath(item.name);
      if cfg.IsTagFile(path) || !IsManifestName(path) || AlgorithmOf(path).None? then []
      else ToListings(AlgorithmOf(path).value, Parse(item.content))
  }

  /** Every line of every md5 or sha256 manifest, in the order of the archive. */
  function Listings(cfg: Config, items: seq<Item>): seq<Listing> {
    if |items| == 0 then [] else ListingsIn(cfg, items[0]) + Listings(cfg, items[1..])
  }

  /** The digest listed last for a path, or "". */
  function LastDigest(ls: seq<Listing>, alg: Algorithm, path: string): string {
    if |ls| == 0 then ""
    else if ls[|ls| - 1].alg == alg && ls[|ls| - 1].path == path then ls[|ls| - 1].digest
    else LastDigest(ls[..|ls| - 1], alg, path)
  }

  /** The content of an entry that is read as a tag file. */
  predicate IsTagEntry(cfg: Config, item: Item) {
    item.Header? && !item.kind.Directory? && cfg.IsTagFile(RelPath(item.name))
  }

  function TagsIn(cfg: Config, item: Item): seq<TagLine> {
    if IsTagEntry(cfg, item) then ParseTags(item.content) else []
  }

  /** Every tag of every tag file, in the order of the archive. */
  function TagsOf(cfg: Config, items: seq<Item>): seq<TagLine> {
    if |items| == 0 then [] else TagsIn(cfg, items[0]) + TagsOf(cfg, items[1..])
  }

  // ----- the conditions -----

  predicate TagFilesRead(cfg: Config, items: seq<Item>) {
    forall i :: 0 <= i < |items| && IsTagEntry(cfg, items[i]) ==> !ScanFails(items[i].content)
  }

  predicate Readable(items: seq<Item>) {
    forall i :: 0 <= i < |items| ==> items[i].Header?
  }

  /** Every entry that is not a directory goes by the name of a regular file. */
  predicate EntriesAreFiles(items: seq<Item>, files: set<string>) {
    forall i :: 0 <= i < |items| && items[i].Header? && !items[i].kind.Directory? ==> RelPath(items[i].name) in files
  }

  predicate ListedFilesExist(ls: seq<Listing>, files: set<string>) {
    forall i :: 0 <= i < |ls| ==> ls[i].path in files
  }

  predicate DigestOk(cfg: Config, ls: seq<Listing>, alg: Algorithm, path: string, content: string) {
    LastDigest(ls, alg, path) == "" || LastDigest(ls, alg, path) == cfg.Computed(alg, content)
  }

  predicate FileOk(cfg: Config, ls: seq<Listing>, path: string, content: string) {
    && DigestOk(cfg, ls, Md5, path, content)
    && DigestOk(cfg, ls, Sha256, path, content)
    && ("data/" <= path ==> LastDigest(ls, Md5, path) != "" || LastDigest(ls, Sha256, path) != "")
    && (path == "fetch.txt" ==> cfg.allowFetchTxt)
    && cfg.NameOk(path)
  }

  predicate FilesOk(cfg: Config, ls: seq<Listing>, contents: map<string, string>) {
    forall p :: p in contents ==> FileOk(cfg, ls, p, contents[p])
  }

  predicate HasPayloadManifest(contents: map<string, string>) {
    exists p :: p in contents && FileTypeOf(p).PayloadManifest?
  }

  predicate OneFolder(items: seq<Item>, dir: string) {
    forall i :: 0 <= i < |items| && items[i].Header? ==> TopDir(items[i].name) == dir
  }

  predicate SpecOk(cfg: Config, contents: map<string, string>, path: string) {
    && (cfg.Demands(path, Required) ==> path in contents)
    && (cfg.Demands(path, Forbidden) ==> path !in contents)
  }

  predicate SpecsOk(cfg: Config, contents: map<string, string>) {
    forall p :: p in cfg.fileSpecs ==> SpecOk(cfg, contents, p)
  }

  /** The bag passes every check on its files and tags. */
  ghost predicate ValidBag(cfg: Config, items: seq<Item>, dir: string) {
    var contents, ls := Contents(items), Listings(cfg, items);
    && Readable(items)
    && EntriesAreFiles(items, contents.Keys)
    && ListedFilesExist(ls, contents.Keys)
    && HasPayloadManifest(contents)
    && OneFolder(items, dir)
    && SpecsOk(cfg, contents)
    && FilesOk(cfg, ls, contents)
    && TagFilesRead(cfg, items) && TagsOk(TagSet(TagsOf(cfg, items)), cfg.tagSpecs, cfg.fold)
  }

  // ----- reading the definitions -----

  predicate IsFile(item: Item, path: string) {
    item.Header? && item.kind.Regular? && RelPath(item.name) == path
  }

  predicate HasFile(items: seq<Item>, path: string) {
    exists i :: 0 <= i < |items| && IsFile(items[i], path)
  }

  lemma HasFileIff(items: seq<Item>, path: string)
    ensures path in Contents(items) <==> HasFile(items, path)
  {
    if path in Contents(items) {
      var i := ContentsIsLastEntry(items, path);
    }
    if i :| 0 <= i < |items| && IsFile(items[i], path) {
      EveryFileIsInContents(items, i);
    }
  }

  /** What makes a bag invalid, in terms of the entries of its archive: a required file that is
      missing, a forbidden one that is there, a name with a control character or a bad
      component, a fetch.txt that is not allowed, an entry under another folder, or no
      payload manifest. */
  lemma Rejected(cfg: Config, items: seq<Item>, dir: string, path: string, i: nat)
    requires i < |items|
    ensures path in cfg.fileSpecs && cfg.fileSpecs[path].presence.Required? && !HasFile(items, path) ==>
              !ValidBag(cfg, items, dir)
    ensures path in cfg.fileSpecs && cfg.fileSpecs[path].presence.Forbidden? && HasFile(items, path) ==>
              !ValidBag(cfg, items, dir)
    ensures HasFile(items, path) && (cfg.hasControl(path) || exists c :: c in Split(path) && !cfg.componentOk(c)) ==>
              !ValidBag(cfg, items, dir)
    ensures HasFile(items, "fetch.txt") && !cfg.allowFetchTxt ==> !ValidBag(cfg, items, dir)
    ensures items[i].Header? && TopDir(items[i].name) != dir ==> !ValidBag(cfg, items, dir)
    ensures (forall p :: HasFile(items, p) ==> !("manifest-" <= p)) ==> !ValidBag(cfg, items, dir)
  {
    var contents, ls := Contents(items), Listings(cfg, items);
    HasFileIff(items, path);
    HasFileIff(items, "fetch.txt");
    if forall p :: HasFile(items, p) ==> !("manifest-" <= p) {
      forall p | p in contents ensures !FileTypeOf(p).PayloadManifest? {
        HasFileIff(items, p);
      }
    }
    if HasFile(items, path) {
      assert FilesOk(cfg, ls, contents) ==> FileOk(cfg, ls, path, contents[path]);
    }
    if HasFile(items, "fetch.txt") {
      assert FilesOk(cfg, ls, contents) ==> FileOk(cfg, ls, "fetch.txt", contents["fetch.txt"]);
    }
    assert SpecsOk(cfg, contents) && path in cfg.fileSpecs ==> SpecOk(cfg, contents, path);
  }

  /** A payload file that no manifest lists makes the bag invalid, and so does any file whose
      bytes do not have the digest that is listed last for it. */
  lemma WrongDigestRejected(cfg: Config, items: seq<Item>, dir: string, alg: Algorithm, path: string)
    requires path in Contents(items)
    ensures var ls := Listings(cfg, items);
            && ("data/" <= path && !ListsPath(ls, Md5, path) && !ListsPath(ls, Sha256, path) ==>
                  !ValidBag(cfg, items, dir))
            && (alg in cfg.fixity && LastDigest(ls, alg, path) !in {"", cfg.hash(alg, Contents(items)[path])} ==>
                  !ValidBag(cfg, items, dir))
  {
    var ls := Listings(cfg, items);
    UnlistedHasNoDigest(ls, Md5, path);
    UnlistedHasNoDigest(ls, Sha256, path);
    assert FilesOk(cfg, ls, Contents(items)) ==> FileOk(cfg, ls, path, Contents(items)[path]);
    assert DigestOk(cfg, ls, Md5, path, Contents(items)[path]) && DigestOk(cfg, ls, Sha256, path, Contents(items)[path])
           ==> DigestOk(cfg, ls, alg, path, Contents(items)[path]);
  }

  lemma {:induction false} EveryFileIsInContents(items: seq<Item>, i: nat)
    requires i < |items| && items[i].Header? && items[i].kind.Regular?
    ensures RelPath(items[i].name) in Contents(items)
  {
    if i > 0 {
      EveryFileIsInContents(items[1..], i - 1);
    }
  }

  /** A file of the bag holds the data of the last regular entry of its name. */
  lemma {:induction false} ContentsIsLastEntry(items: seq<Item>, p: string) returns (i: nat)
    requires p in Contents(items)
    ensures i < |items| && IsFile(items[i], p) && Contents(items)[p] == items[i].content
    ensures forall j :: i < j < |items| ==> !IsFile(items[j], p)
  {
    if p in Contents(items[1..]) {
      var k := ContentsIsLastEntry(items[1..], p);
      i := k + 1;
      forall j | i < j < |items| ensures !IsFile(items[j], p) {
        assert items[1..][j - 1] == items[j];
      }
    } else {
      i := 0;
      forall j | i < j < |items| ensures !IsFile(items[j], p) {
        assert items[1..][j - 1] == items[j];
        if IsFile(items[j], p) {
          EveryFileIsInContents(items[1..], j - 1);
        }
      }
    }
  }

  /** The digest listed last is one that is listed, with nothing listed for the path after it. */
  lemma {:induction false} LastDigestIsLast(ls: seq<Listing>, alg: Algorithm, path: string, i: nat)
    requires i < |ls| && ls[i].alg == alg && ls[i].path == path
    requires forall j :: i < j < |ls| ==> ls[j].alg != alg || ls[j].path != path
    ensures LastDigest(ls, alg, path) == ls[i].digest
  {
    if i < |ls| - 1 {
      LastDigestIsLast(ls[..|ls| - 1], alg, path, i);
    }
  }

  predicate ListsPath(ls: seq<Listing>, alg: Algorithm, path: string) {
    exists i :: 0 <= i < |ls| && ls[i].alg == alg && ls[i].path == path
  }

  lemma {:induction false} UnlistedHasNoDigest(ls: seq<Listing>, alg: Algorithm, path: string)
    ensures !ListsPath(ls, alg, path) ==> LastDigest(ls, alg, path) == ""
  {
    if |ls| > 0 {
      var n := |ls| - 1;
      UnlistedHasNoDigest(ls[..n], alg, path);
      assert forall i :: 0 <= i < n ==> ls[..n][i] == ls[i];
    }
  }

  lemma LastDigestAfter(ls: seq<Listing>, l: Listing, alg: Algorithm, path: string)
    ensures LastDigest(ls + [l], alg, path) ==
            if l.alg == alg && l.path == path then l.digest else LastDigest(ls, alg, path)
  {
    Halves(ls, [l]);
  }

  /** Of two lists, the later decides if it lists the path at all. */
  lemma {:induction false} LastDigestOfTwo(a: seq<Listing>, b: seq<Listing>, alg: Algorithm, path: string)
    ensures LastDigest(a + b, alg, path) ==
            if ListsPath(b, alg, path) then LastDigest(b, alg, path) else LastDigest(a, alg, path)
    decreases |b|
  {
    if |b| == 0 {
      Nothing(a);
    } else {
      var n := |b| - 1;
      PrefixStep(b, n);
      Whole(b);
      Assoc(a, b[..n], [b[n]]);
      LastDigestAfter(a + b[..n], b[n], alg, path);
      LastDigestAfter(b[..n], b[n], alg, path);
      LastDigestOfTwo(a, b[..n], alg, path);
      assert forall i :: 0 <= i < n ==> b[..n][i] == b[i];
    }
  }
}
