/** The bag validator (validation/validator.go): two forward passes over the archive, a
    database of file records that manifest lines rewrite, and a capped list of errors. */
module Validation {
  import opened Collections
  import opened Text
  import opened TarFiles
  import opened Manifests
  import opened Options
  import opened Tags
  import opened Bags
  import opened WorkSummaries

  /** What the validation database keeps for one file. */
  datatype FileRecord = FileRecord(fileType: FileType, md5: string, sha256: string, manifestMd5: string,
                                   manifestSha256: string)
  {
    function WithListed(alg: Algorithm, digest: string): FileRecord {
      if alg.Md5? then this.(manifestMd5 := digest) else this.(manifestSha256 := digest)
    }
  }

  type Database = map<string, FileRecord>

  // ----- the steps, as functions of what the validator has noted so far -----

  /** What the first pass notes. */
  datatype Notes = Notes(db: Database, manifests: seq<string>, tagManifests: seq<string>, required: seq<string>,
                         forbidden: seq<string>)

  const NOTHING := Notes(map[], [], [], [], [])

  function NewRecord(cfg: Config, path: string, content: string): FileRecord {
    FileRecord(FileTypeOf(path), cfg.Computed(Md5, content), cfg.Computed(Sha256, content), "", "")
  }

  function NoteFile(cfg: Config, obj: string, n: Notes, path: string, content: string): Notes {
    Notes(n.db[Identifier(obj, path) := NewRecord(cfg, path, content)],
          n.manifests + (if FileTypeOf(path).PayloadManifest? then [path] else []),
          n.tagManifests + (if FileTypeOf(path).TagManifest? then [path] else []),
          n.required + (if cfg.Demands(path, Required) then [path] else []),
          n.forbidden + (if cfg.Demands(path, Forbidden) then [path] else []))
  }

  function NoteItem(cfg: Config, obj: string, n: Notes, item: Item): Notes {
    if item.Header? && item.kind.Regular? then NoteFile(cfg, obj, n, RelPath(item.name), item.content) else n
  }

  function NoteItems(cfg: Config, obj: string, n: Notes, items: seq<Item>): Notes
    decreases |items|
  {
    if |items| == 0 then n else NoteItems(cfg, obj, NoteItem(cfg, obj, n, items[0]), items[1..])
  }

  /** The database of the second pass, the tags read, and whether an error has been reported. */
  datatype Progress = Progress(db: Database, tags: seq<TagLine>, failed: bool)

  function TakeEntry(obj: string, alg: Algorithm, s: Progress, e: Entry): Progress {
    var id := Identifier(obj, e.path);
    if id !in s.db then s.(failed := true) else s.(db := s.db[id := s.db[id].WithListed(alg, e.digest)])
  }

  function TakeEntries(obj: string, alg: Algorithm, s: Progress, es: seq<Entry>): Progress
    decreases |es|
  {
    if |es| == 0 then s else TakeEntries(obj, alg, TakeEntry(obj, alg, s, es[0]), es[1..])
  }

  function TakeManifest(obj: string, s: Progress, path: string, content: string): Progress {
    if AlgorithmOf(path).None? then s else TakeEntries(obj, AlgorithmOf(path).value, s, Parse(content))
  }

  function TakeFile(cfg: Config, obj: string, n: Notes, s: Progress, path: string, content: string): Progress {
    if Identifier(obj, path) !in s.db then s.(failed := true)
    else if cfg.IsTagFile(path) then s.(tags := s.tags + ParseTags(content), failed := s.failed || ScanFails(content))
    else if path in n.manifests || path in n.tagManifests then TakeManifest(obj, s, path, content)
    else s
  }

  function TakeItem(cfg: Config, obj: string, n: Notes, s: Progress, item: Item): Progress {
    match item
    case Unreadable => s.(failed := true)
    case Header(name, kind, content) => if kind.Directory? then s else TakeFile(cfg, obj, n, s, RelPath(name), content)
  }

  function TakeItems(cfg: Config, obj: string, n: Notes, s: Progress, items: seq<Item>): Progress
    decreases |items|
  {
    if |items| == 0 then s else TakeItems(cfg, obj, n, TakeItem(cfg, obj, n, s, items[0]), items[1..])
  }

  /** The second pass after some of its steps: where the reader stands, what the pass has
      found, and whether it has ended. */
  datatype Pass = Pass(pos: nat, state: Progress, ended: bool)

  function PassStep(cfg: Config, obj: string, n: Notes, p: Pass, items: seq<Item>): (r: Pass)
    requires p.pos <= |items|
    ensures r.pos <= |items|
  {
    if p.ended then p
    else if p.pos == |items| then p.(ended := true)
    else Pass(if items[p.pos].Header? then p.pos + 1 else p.pos, TakeItem(cfg, obj, n, p.state, items[p.pos]), false)
  }

  function PassAfter(cfg: Config, obj: string, n: Notes, p: Pass, items: seq<Item>, k: nat): Pass
    requires p.pos <= |items|
    decreases k
  {
    if k == 0 then p else PassAfter(cfg, obj, n, PassStep(cfg, obj, n, p, items), items, k - 1)
  }

  /** The checks made on each record at the end. */
  predicate RecordOk(cfg: Config, path: string, r: FileRecord) {
    && !(path == "fetch.txt" && !cfg.allowFetchTxt)
    && !(r.manifestMd5 != "" && r.manifestMd5 != r.md5)
    && !(r.manifestSha256 != "" && r.manifestSha256 != r.sha256)
    && !(r.fileType.PayloadFile? && r.manifestMd5 == "" && r.manifestSha256 == "")
    && cfg.NameOk(path)
  }

  predicate RecordsOk(cfg: Config, obj: string, db: Database) {
    forall id :: id in db ==> RecordOk(cfg, OriginalPath(id, obj), db[id])
  }

  predicate NotedSpecOk(cfg: Config, required: seq<string>, forbidden: seq<string>, path: string) {
    && (cfg.Demands(path, Required) ==> path in required)
    && (cfg.Demands(path, Forbidden) ==> path !in forbidden)
  }

  predicate NotedSpecsOk(cfg: Config, required: seq<string>, forbidden: seq<string>) {
    forall p :: p in cfg.fileSpecs ==> NotedSpecOk(cfg, required, forbidden, p)
  }

  predicate FoldersOk(dirs: seq<string>, expected: string) {
    forall i :: 0 <= i < |dirs| ==> dirs[i] == expected
  }

  class Validator {
    const objIdentifier: string
    const cfg: Config
    const summary: WorkSummary
    var manifests: seq<string>
    var tagManifests: seq<string>
    var requiredFiles: seq<string>
    var forbiddenFiles: seq<string>
    var topLevelDirNames: seq<string>
    var ingestTags: seq<TagLine>
    var db: Database

    constructor (objIdentifier: string, cfg: Config)
      ensures this.objIdentifier == objIdentifier && this.cfg == cfg
      ensures fresh(summary) && summary.View() == FRESH
      ensures Noted() == NOTHING && topLevelDirNames == [] && ingestTags == []
    {
      this.objIdentifier, this.cfg := objIdentifier, cfg;
      summary := new WorkSummary();
      manifests, tagManifests, requiredFiles, forbiddenFiles, topLevelDirNames := [], [], [], [], [];
      ingestTags, db := [], map[];
    }

    function Noted(): Notes
      reads this
    {
      Notes(db, manifests, tagManifests, requiredFiles, forbiddenFiles)
    }

    predicate Failed()
      reads summary
    {
      |summary.errors| > 0
    }

    function State(): Progress
      reads this, summary
    {
      Progress(db, ingestTags, Failed())
    }

    method NoteSpec(path: string)
      modifies this`requiredFiles, this`forbiddenFiles
      ensures requiredFiles == old(requiredFiles) + (if cfg.Demands(path, Required) then [path] else [])
      ensures forbiddenFiles == old(forbiddenFiles) + (if cfg.Demands(path, Forbidden) then [path] else [])
    {
      if path in cfg.fileSpecs {
        if cfg.fileSpecs[path].presence.Required? {
          requiredFiles := requiredFiles + [path];
        } else if cfg.fileSpecs[path].presence.Forbidden? {
          forbiddenFiles := forbiddenFiles + [path];
        }
      }
    }

    method AddFile(path: string, content: string)
      modifies this`manifests, this`tagManifests, this`requiredFiles, this`forbiddenFiles, this`db
      ensures Noted() == NoteFile(cfg, objIdentifier, old(Noted()), path, content)
    {
      var identifier := Identifier(objIdentifier, path);
      var fileType := FileTypeOf(path);
      if fileType.TagManifest? {
        tagManifests := tagManifests + [path];
      } else if fileType.PayloadManifest? {
        manifests := manifests + [path];
      }
      OriginalPathOfIdentifier(objIdentifier, path);
      NoteSpec(OriginalPath(identifier, objIdentifier));
      db := db[identifier := FileRecord(fileType, cfg.Computed(Md5, content), cfg.Computed(Sha256, content), "", "")];
    }

    /** One step of the first pass. */
    method AddNext(tar: TarFileIterator) returns (damaged: bool)
      requires summary.Valid() && tar.Valid() && tar.pos < |tar.items|
      modifies this, summary, tar
      ensures summary.Valid() && tar.Valid() && ingestTags == old(ingestTags)
      ensures damaged == tar.items[old(tar.pos)].Unreadable? && Failed() == (old(Failed()) || damaged)
      ensures tar.pos == if damaged then old(tar.pos) else old(tar.pos) + 1
      ensures Noted() == NoteItem(cfg, objIdentifier, old(Noted()), tar.items[old(tar.pos)])
    {
      var step := tar.Next();
      damaged := step.ReadFailure?;
      if damaged {
        summary.AddError("Error reading bag");
        summary.errorIsFatal := true;
      } else if step.kind.Regular? {
        AddFile(step.relPath, step.content);
      }
    }

    /** The first pass over an open archive. It stops at the first damage. */
    method AddEach(items: seq<Item>)
      requires summary.Valid()
      modifies this, summary
      ensures summary.Valid() && ingestTags == old(ingestTags)
      ensures Failed() == (old(Failed()) || !Readable(items))
      ensures Readable(items) ==>
                Noted() == NoteItems(cfg, objIdentifier, old(Noted()), items) && topLevelDirNames == TopDirs(items)
    {
      var tar := new TarFileIterator(items);
      var damaged := false;
      ghost var all := NoteItems(cfg, objIdentifier, Noted(), items);
      Whole(items);
      while !damaged && tar.pos < |items|
        invariant tar.Valid() && tar.items == items && fresh(tar) && summary.Valid() && ingestTags == old(ingestTags)
        invariant Failed() == (old(Failed()) || damaged) && Readable(items[..tar.pos])
        invariant !damaged ==> NoteItems(cfg, objIdentifier, Noted(), items[tar.pos..]) == all
        invariant damaged ==> !Readable(items)
        decreases |items| - tar.pos, !damaged
      {
        PrefixStep(items, tar.pos);
        SuffixStep(items, tar.pos);
        damaged := AddNext(tar);
      }
      Whole(items);
      topLevelDirNames := tar.topLevelDirNames;
    }

    method AddFiles(items: seq<Item>, opens: bool)
      requires summary.Valid()
      modifies this, summary
      ensures summary.Valid() && ingestTags == old(ingestTags)
      ensures Failed() == (old(Failed()) || !opens || !Readable(items))
      ensures opens && Readable(items) ==>
                Noted() == NoteItems(cfg, objIdentifier, old(Noted()), items) && topLevelDirNames == TopDirs(items)
    {
      if opens {
        AddEach(items);
      } else {
        summary.AddError("Error getting file iterator");
      }
    }

    /** Takes the digests out of one manifest. A line that names no file of the bag is an error. */
    method ParseManifest(path: string, content: string)
      requires summary.Valid()
      modifies this`db, summary
      ensures summary.Valid() && State() == TakeManifest(objIdentifier, old(State()), path, content)
    {
      var alg := AlgorithmOf(path);
      if alg.None? {
        return;
      }
      var lines := Scan(content);
      Whole(lines);
      for n := 0 to |lines|
        invariant summary.Valid()
        invariant TakeEntries(objIdentifier, alg.value, State(), ParseLines(lines[n..])) ==
                  TakeEntries(objIdentifier, alg.value, old(State()), Parse(content))
      {
        SuffixStep(lines, n);
        if !IsBlank(lines[n]) {
          var entry := ParseLine(lines[n]);
          Halves([entry], ParseLines(lines[n + 1..]));
          var identifier := Identifier(objIdentifier, entry.path);
          if identifier !in db {
            summary.AddError("missing from bag: " + entry.path);
          } else {
            db := db[identifier := db[identifier].WithListed(alg.value, entry.digest)];
          }
        }
      }
      Whole(lines);
    }

    /** Reads the tags of one tag file, joining continuation lines to the tag before them. */
    method ParseTagFile(content: string)
      requires summary.Valid()
      modifies this`ingestTags, summary
      ensures summary.Valid() && Failed() == (old(Failed()) || ScanFails(content))
      ensures ingestTags == old(ingestTags) + ParseTags(content)
    {
      var lines, current := Scan(content), None;
      ghost var all := ingestTags + ParseTags(content);
      Whole(lines);
      for n := 0 to |lines|
        invariant summary.View() == old(summary.View()) && ingestTags + TagLines(lines[n..], current) == all
      {
        SuffixStep(lines, n);
        if !IsBlank(lines[n]) {
          var name, value := LabelOf(lines[n]), ValueOf(lines[n]);
          if name != "" {
            Assoc(ingestTags, Finished(current), TagLines(lines[n + 1..], Some(TagLine(name, value))));
            ingestTags := ingestTags + Finished(current);
            current := Some(TagLine(name, value));
          } else {
            current := Continued(current, value);
          }
        }
      }
      Whole(lines);
      ingestTags := ingestTags + Finished(current);
      if ScanFails(content) {
        summary.AddError("Error reading tag file");
      }
    }

    method ParseFile(path: string, content: string)
      requires summary.Valid()
      modifies this`db, this`ingestTags, summary
      ensures summary.Valid() && State() == TakeFile(cfg, objIdentifier, old(Noted()), old(State()), path, content)
    {
      if Identifier(objIdentifier, path) !in db {
        summary.AddError("not in validation db: " + path);
      } else if cfg.IsTagFile(path) {
        ParseTagFile(content);
      } else if path in manifests || path in tagManifests {
        ParseManifest(path, content);
      }
    }

    /** What the second pass does at one step of the reader. It looks for the exit at more than
        a hundred errors, which is never there. */
    method ParseNext(step: Step) returns (leave: bool)
      requires summary.Valid()
      modifies this`db, this`ingestTags, summary
      ensures summary.Valid() && leave == step.EndOfFile?
      ensures match step
              case EndOfFile => State() == old(State())
              case ReadFailure => State() == old(State()).(failed := true)
              case Found(path, kind, content) =>
                State() ==
                if kind.Directory? then old(State())
                else TakeFile(cfg, objIdentifier, old(Noted()), old(State()), path, content)
    {
      match step {
        case EndOfFile =>
          return true;
        case ReadFailure =>
          summary.AddError("Error reading bag");
          return |summary.errors| > 100;
        case Found(path, kind, content) =>
          if !kind.Directory? {
            ParseFile(path, content);
          }
          return false;
      }
    }

    /** One step of the second pass. */
    method ParseStep(tar: TarFileIterator, ghost n: Notes) returns (ended: bool)
      requires summary.Valid() && tar.Valid() && n.manifests == manifests && n.tagManifests == tagManifests
      modifies this`db, this`ingestTags, summary, tar
      ensures summary.Valid() && tar.Valid()
      ensures Pass(tar.pos, State(), ended) ==
              PassStep(cfg, objIdentifier, n, Pass(old(tar.pos), old(State()), false), tar.items)
    {
      var step := tar.Next();
      if step.Found? {
        SameLists(n, Noted(), State(), step.relPath, step.content);
      }
      ended := ParseNext(step);
    }

    /** The first so many steps of the second pass. */
    method ParseFiles(items: seq<Item>, opens: bool, steps: nat) returns (ended: bool, consumed: nat)
      requires summary.Valid()
      modifies this`db, this`ingestTags, summary
      ensures summary.Valid()
      ensures !opens ==> ended && Failed()
      ensures opens ==>
                Pass(consumed, State(), ended) ==
                PassAfter(cfg, objIdentifier, old(Noted()), Pass(0, old(State()), false), items, steps)
    {
      if !opens {
        summary.AddError("Error getting file iterator");
        return true, 0;
      }
      var tar := new TarFileIterator(items);
      var k := 0;
      ended := false;
      ghost var n, all := Noted(), PassAfter(cfg, objIdentifier, Noted(), Pass(0, State(), false), items, steps);
      while k < steps && !ended
        invariant 0 <= k <= steps && tar.Valid() && tar.items == items && fresh(tar) && summary.Valid()
        invariant PassAfter(cfg, objIdentifier, n, Pass(tar.pos, State(), ended), items, steps - k) == all
      {
        ended := ParseStep(tar, n);
        k := k + 1;
      }
      consumed := tar.pos;
      EndedStaysEnded(cfg, objIdentifier, n, Pass(tar.pos, State(), ended), items, steps - k);
    }

    /** A file is parsed by the lists of the first pass, whatever the records have become. */
    lemma SameLists(n: Notes, m: Notes, s: Progress, path: string, content: string)
      requires n.manifests == m.manifests && n.tagManifests == m.tagManifests
      ensures TakeFile(cfg, objIdentifier, n, s, path, content) == TakeFile(cfg, objIdentifier, m, s, path, content)
    {
    }

    method VerifyManifestPresent()
      requires summary.Valid()
      modifies summary
      ensures summary.Valid() && Failed() == (old(Failed()) || manifests == [])
    {
      if |manifests| == 0 {
        summary.AddError("Bag contains no payload manifest.");
      }
    }

    method VerifyTopLevelFolder(expected: string)
      requires summary.Valid()
      modifies summary
      ensures summary.Valid() && Failed() == (old(Failed()) || !FoldersOk(topLevelDirNames, expected))
    {
      for i := 0 to |topLevelDirNames|
        invariant summary.Valid() && Failed() == (old(Failed()) || !FoldersOk(topLevelDirNames[..i], expected))
      {
        PrefixStep(topLevelDirNames, i);
        if topLevelDirNames[i] != expected {
          summary.AddError("wrong top-level directory: " + topLevelDirNames[i]);
        }
      }
      Whole(topLevelDirNames);
    }

    method VerifyFileSpecs()
      requires summary.Valid()
      modifies summary
      ensures summary.Valid() && Failed() == (old(Failed()) || !NotedSpecsOk(cfg, requiredFiles, forbiddenFiles))
    {
      var todo := cfg.fileSpecs.Keys;
      while todo != {}
        invariant todo <= cfg.fileSpecs.Keys && summary.Valid()
        invariant Failed() == (old(Failed()) ||
                    exists p :: p in cfg.fileSpecs && p !in todo && !NotedSpecOk(cfg, requiredFiles, forbiddenFiles, p))
        decreases |todo|
      {
        var path :| path in todo;
        var presence := cfg.fileSpecs[path].presence;
        if presence.Required? && path !in requiredFiles {
          summary.AddError("required file is missing: " + path);
        } else if presence.Forbidden? && path in forbiddenFiles {
          summary.AddError("forbidden file: " + path);
        }
        todo := todo - {path};
      }
    }

    /** What a profile asks of one tag, as checkRequiredTag and checkAllowedTagValue see it. */
    method CheckTag(name: string, spec: TagSpec) returns (ok: bool)
      ensures ok == TagOk(TagSet(ingestTags), name, spec, cfg.fold)
    {
      var found, valued, allowed := false, false, false;
      for i := 0 to |ingestTags|
        invariant found == HasTag(TagSet(ingestTags[..i]), name) && valued == HasValue(TagSet(ingestTags[..i]), name)
        invariant allowed == HasAllowed(TagSet(ingestTags[..i]), name, spec.allowed, cfg.fold)
      {
        PrefixStep(ingestTags, i);
        var tag := ingestTags[i];
        if tag.name == name {
          var listed := false;
          for k := 0 to |spec.allowed|
            invariant listed == exists j :: 0 <= j < k && cfg.fold(spec.allowed[j]) == cfg.fold(tag.value)
          {
            listed := listed || cfg.fold(spec.allowed[k]) == cfg.fold(tag.value);
          }
          OneMoreTag(ingestTags, i, name, spec.allowed, cfg.fold);
          found, valued, allowed := true, valued || tag.value != "", allowed || listed;
        } else {
          OneMoreTag(ingestTags, i, name, spec.allowed, cfg.fold);
        }
      }
      Whole(ingestTags);
      ok := (!spec.required || (found && (spec.emptyOk || valued))) && (!found || |spec.allowed| == 0 || allowed);
    }

    method VerifyTagSpecs()
      requires summary.Valid()
      modifies summary
      ensures summary.Valid() && Failed() == (old(Failed()) || !TagsOk(TagSet(ingestTags), cfg.tagSpecs, cfg.fold))
    {
      var names := Enumerate(cfg.tagSpecs.Keys);
      for i := 0 to |names|
        invariant summary.Valid()
        invariant Failed() == (old(Failed()) ||
                    exists j :: 0 <= j < i && !TagOk(TagSet(ingestTags), names[j], cfg.tagSpecs[names[j]], cfg.fold))
      {
        var ok := CheckTag(names[i], cfg.tagSpecs[names[i]]);
        if !ok {
          summary.AddError("tag does not meet its specification: " + names[i]);
        }
      }
    }

    method VerifyName(path: string)
      requires summary.Valid()
      modifies summary
      ensures summary.Valid() && Failed() == (old(Failed()) || !cfg.NameOk(path))
    {
      if cfg.hasControl(path) {
        summary.AddError("control character in file name: " + path);
        return;
      }
      var components := Split(path);
      for i := 0 to |components|
        invariant summary.Valid()
        invariant Failed() == (old(Failed()) || exists j :: 0 <= j < i && !cfg.componentOk(components[j]))
      {
        if !cfg.componentOk(components[i]) {
          summary.AddError("file name is not valid: " + path);
        }
      }
    }

    method VerifyRecord(path: string, r: FileRecord)
      requires summary.Valid()
      modifies summary
      ensures summary.Valid() && Failed() == (old(Failed()) || !RecordOk(cfg, path, r))
    {
      if path == "fetch.txt" && !cfg.allowFetchTxt {
        summary.AddError("fetch.txt is not allowed");
      }
      if r.manifestMd5 != "" && r.manifestMd5 != r.md5 {
        summary.AddError("bad md5 digest: " + path);
      }
      if r.manifestSha256 != "" && r.manifestSha256 != r.sha256 {
        summary.AddError("bad sha256 digest: " + path);
      }
      if r.fileType.PayloadFile? && r.manifestMd5 == "" && r.manifestSha256 == "" {
        summary.AddError("in no payload manifest: " + path);
      }
      VerifyName(path);
    }

    method VerifyGenericFiles()
      requires summary.Valid()
      modifies summary
      ensures summary.Valid() && Failed() == (old(Failed()) || !RecordsOk(cfg, objIdentifier, db))
    {
      var keys := Enumerate(db.Keys);
      for i := 0 to |keys|
        invariant summary.Valid()
        invariant Failed() == (old(Failed()) ||
                    exists j :: 0 <= j < i && !RecordOk(cfg, OriginalPath(keys[j], objIdentifier), db[keys[j]]))
      {
        VerifyRecord(OriginalPath(keys[i], objIdentifier), db[keys[i]]);
      }
    }

    /** The whole validation, given so many steps for the second pass. It
        ends exactly if the archive can be read, or cannot be opened a second time; and when
        it ends it reports an error exactly when the bag is not valid. */
    method Validate(items: seq<Item>, expectedDir: string, firstOpens: bool, secondOpens: bool, steps: nat)
      returns (ended: bool)
      requires summary.View() == FRESH && Noted() == NOTHING && ingestTags == []
      modifies this, summary
      ensures summary.Valid() && (ended ==> summary.finished)
      ensures ended <==> !secondOpens || (Readable(items) && steps > |items|)
      ensures ended ==> (Failed() <==> !(firstOpens && secondOpens && ValidBag(cfg, items, expectedDir)))
    {
      summary.Begin();
      AddFiles(items, firstOpens);
      ghost var n, failed := Noted(), Failed();
      var consumed;
      ended, consumed := ParseFiles(items, secondOpens, steps);
      if secondOpens {
        PassReaches(cfg, objIdentifier, n, Pass(0, Progress(n.db, [], failed), false), items, steps);
        Whole(items);
      }
      if !ended {
        return;
      }
      VerifyManifestPresent();
      VerifyTopLevelFolder(expectedDir);
      VerifyFileSpecs();
      VerifyTagSpecs();
      VerifyGenericFiles();
      summary.Finish();
      if firstOpens && Readable(items) {
        PassesDecideValidity(cfg, objIdentifier, items, expectedDir);
      } else if secondOpens {
        DamageIsRemembered(cfg, objIdentifier, n, Progress(n.db, [], true), items);
      }
    }
  }

  lemma OneMoreTag(tags: seq<TagLine>, i: nat, name: string, allowed: seq<string>, fold: string -> string)
    requires i < |tags|
    ensures HasTag(TagSet(tags[..i + 1]), name) <==> HasTag(TagSet(tags[..i]), name) || tags[i].name == name
    ensures HasValue(TagSet(tags[..i + 1]), name) <==>
            HasValue(TagSet(tags[..i]), name) || (tags[i].name == name && tags[i].value != "")
    ensures HasAllowed(TagSet(tags[..i + 1]), name, allowed, fold) <==>
            || HasAllowed(TagSet(tags[..i]), name, allowed, fold)
            || (tags[i].name == name && exists k :: 0 <= k < |allowed| && fold(allowed[k]) == fold(tags[i].value))
  {
    PrefixStep(tags, i);
    assert forall t :: t in TagSet(tags[..i + 1]) <==> t in TagSet(tags[..i]) || t == tags[i];
  }

  // ----- how far the second pass gets -----

  lemma {:induction false} EndedStaysEnded(cfg: Config, obj: string, n: Notes, p: Pass, items: seq<Item>, k: nat)
    requires p.pos <= |items|
    ensures p.ended || k == 0 ==> PassAfter(cfg, obj, n, p, items, k) == p
    decreases k
  {
    if k > 0 && p.ended {
      EndedStaysEnded(cfg, obj, n, p, items, k - 1);
    }
  }

  lemma {:induction false} ReadableIffIntact(items: seq<Item>)
    ensures Readable(items) <==> Intact(items) == |items|
  {
    if Intact(items) < |items| {
      assert items[Intact(items)].Unreadable?;
    }
  }

  /** At damage the pass stays where it is, step after step, and has an error. */
  lemma {:induction false} DamageIsNotPassed(cfg: Config, obj: string, n: Notes, p: Pass, items: seq<Item>, k: nat)
    requires p.pos < |items| && items[p.pos].Unreadable? && !p.ended
    ensures var r := PassAfter(cfg, obj, n, p, items, k);
            r.pos == p.pos && !r.ended && (k > 0 || p.state.failed ==> r.state.failed)
    decreases k
  {
    if k > 0 {
      DamageIsNotPassed(cfg, obj, n, PassStep(cfg, obj, n, p, items), items, k - 1);
    }
  }

  /** After any number of steps the reader stands at the end or at the first damage, if it
      has got so far. There it ends, or stays with an error for ever. */
  lemma {:induction false} PassReaches(cfg: Config, obj: string, n: Notes, p: Pass, items: seq<Item>, k: nat)
    requires p.pos <= Intact(items) && !p.ended
    ensures var r := PassAfter(cfg, obj, n, p, items, k);
            && r.pos == (if p.pos + k < Intact(items) then p.pos + k else Intact(items))
            && (r.ended <==> Readable(items) && p.pos + k > |items|)
            && (r.ended ==> r.state == TakeItems(cfg, obj, n, p.state, items[p.pos..]))
            && (!Readable(items) && p.pos + k > Intact(items) ==> r.state.failed)
    decreases k
  {
    ReadableIffIntact(items);
    if k > 0 {
      var q := PassStep(cfg, obj, n, p, items);
      if p.pos == |items| {
        EndedStaysEnded(cfg, obj, n, q, items, k - 1);
        Whole(items);
      } else if p.pos == Intact(items) {
        DamageIsNotPassed(cfg, obj, n, p, items, k);
      } else {
        SuffixStep(items, p.pos);
        PassReaches(cfg, obj, n, q, items, k - 1);
      }
    }
  }

  /** The second pass ends if and only if the archive is undamaged. On a damaged one it goes
      on for ever: thirty errors are all a summary holds. */
  lemma SecondPassEndsIffReadable(cfg: Config, obj: string, n: Notes, s: Progress, items: seq<Item>)
    ensures (exists k: nat :: PassAfter(cfg, obj, n, Pass(0, s, false), items, k).ended) <==> Readable(items)
  {
    forall k: nat
      ensures PassAfter(cfg, obj, n, Pass(0, s, false), items, k).ended <==> Readable(items) && k > |items| {
      PassReaches(cfg, obj, n, Pass(0, s, false), items, k);
    }
    if Readable(items) {
      assert PassAfter(cfg, obj, n, Pass(0, s, false), items, |items| + 1).ended;
    }
  }

  // ----- the database against the bag -----

  function RecordOf(cfg: Config, path: string, content: string, ls: seq<Listing>): FileRecord {
    FileRecord(FileTypeOf(path), cfg.Computed(Md5, content), cfg.Computed(Sha256, content),
               LastDigest(ls, Md5, path), LastDigest(ls, Sha256, path))
  }

  function Identifiers(obj: string, paths: set<string>): set<string> {
    set p | p in paths :: Identifier(obj, p)
  }

  /** The database records exactly these files, with the digests listed last. */
  ghost predicate Holds(db: Database, cfg: Config, obj: string, contents: map<string, string>, ls: seq<Listing>) {
    && db.Keys == Identifiers(obj, contents.Keys)
    && forall p :: p in contents ==>
         Identifier(obj, p) in db && db[Identifier(obj, p)] == RecordOf(cfg, p, contents[p], ls)
  }

  lemma HoldsAfterFile(db: Database, cfg: Config, obj: string, contents: map<string, string>, path: string,
                       content: string)
    requires Holds(db, cfg, obj, contents, [])
    ensures var next := db[Identifier(obj, path) := NewRecord(cfg, path, content)];
            Holds(next, cfg, obj, contents + map[path := content], [])
  {
    var db', c' := db[Identifier(obj, path) := NewRecord(cfg, path, content)], contents + map[path := content];
    assert c'.Keys == contents.Keys + {path};
    assert db'.Keys == Identifiers(obj, c'.Keys);
    forall p | p in c'
      ensures Identifier(obj, p) in db' && db'[Identifier(obj, p)] == RecordOf(cfg, p, c'[p], [])
    {
      if p != path && Identifier(obj, p) == Identifier(obj, path) {
        IdentifierInjective(obj, p, path);
      }
    }
  }

  lemma KnownIffInBag(db: Database, cfg: Config, obj: string, contents: map<string, string>, ls: seq<Listing>,
                      path: string)
    requires Holds(db, cfg, obj, contents, ls)
    ensures Identifier(obj, path) in db <==> path in contents
  {
    if Identifier(obj, path) in db {
      var p :| p in contents && Identifier(obj, p) == Identifier(obj, path);
      IdentifierInjective(obj, p, path);
    }
  }

  lemma RecordAfterLine(cfg: Config, path: string, content: string, ls: seq<Listing>, l: Listing)
    ensures RecordOf(cfg, path, content, ls + [l]) ==
            if path == l.path then RecordOf(cfg, path, content, ls).WithListed(l.alg, l.digest)
            else RecordOf(cfg, path, content, ls)
  {
    LastDigestAfter(ls, l, Md5, path);
    LastDigestAfter(ls, l, Sha256, path);
  }

  lemma HoldsAfterLine(db: Database, cfg: Config, obj: string, contents: map<string, string>, ls: seq<Listing>,
                       l: Listing)
    requires Holds(db, cfg, obj, contents, ls) && l.path in contents
    ensures Identifier(obj, l.path) in db
    ensures var next := db[Identifier(obj, l.path) := db[Identifier(obj, l.path)].WithListed(l.alg, l.digest)];
            Holds(next, cfg, obj, contents, ls + [l])
  {
    var id := Identifier(obj, l.path);
    var db' := db[id := db[id].WithListed(l.alg, l.digest)];
    assert db'.Keys == db.Keys;
    forall p | p in contents
      ensures Identifier(obj, p) in db' && db'[Identifier(obj, p)] == RecordOf(cfg, p, contents[p], ls + [l])
    {
      RecordAfterLine(cfg, p, contents[p], ls, l);
      if p != l.path && Identifier(obj, p) == id {
        IdentifierInjective(obj, p, l.path);
      }
    }
  }

  lemma FirstPassStep(cfg: Config, obj: string, n: Notes, c: map<string, string>, item: Item)
    requires Holds(n.db, cfg, obj, c, [])
    ensures Holds(NoteItem(cfg, obj, n, item).db, cfg, obj, c + FileIn(item), [])
  {
    if item.Header? && item.kind.Regular? {
      HoldsAfterFile(n.db, cfg, obj, c, RelPath(item.name), item.content);
    } else {
      UnionEmpty(c);
    }
  }

  lemma {:induction false} FirstPassHolds(cfg: Config, obj: string, n: Notes, c: map<string, string>, items: seq<Item>)
    requires Holds(n.db, cfg, obj, c, [])
    ensures Holds(NoteItems(cfg, obj, n, items).db, cfg, obj, c + Contents(items), [])
    decreases |items|
  {
    if |items| == 0 {
      UnionEmpty(c);
    } else {
      FirstPassStep(cfg, obj, n, c, items[0]);
      FirstPassHolds(cfg, obj, NoteItem(cfg, obj, n, items[0]), c + FileIn(items[0]), items[1..]);
      UnionAssoc(c, FileIn(items[0]), Contents(items[1..]));
    }
  }

  /** The lists that the first pass fills besides the database. */
  ghost predicate ListsHold(cfg: Config, files: set<string>, n: Notes) {
    && (forall p :: p in n.manifests <==> p in files && FileTypeOf(p).PayloadManifest?)
    && (forall p :: p in n.tagManifests <==> p in files && FileTypeOf(p).TagManifest?)
    && (forall p :: p in n.required <==> p in files && cfg.Demands(p, Required))
    && (forall p :: p in n.forbidden <==> p in files && cfg.Demands(p, Forbidden))
  }

  lemma ListsHoldAfterFile(cfg: Config, obj: string, files: set<string>, n: Notes, path: string, content: string)
    requires ListsHold(cfg, files, n)
    ensures ListsHold(cfg, files + {path}, NoteFile(cfg, obj, n, path, content))
  {
  }

  lemma {:induction false} FirstPassLists(cfg: Config, obj: string, n: Notes, files: set<string>, items: seq<Item>)
    requires ListsHold(cfg, files, n)
    ensures ListsHold(cfg, files + Contents(items).Keys, NoteItems(cfg, obj, n, items))
    decreases |items|
  {
    if |items| == 0 {
      assert files + {} == files;
    } else {
      var f := FileIn(items[0]).Keys;
      if f != {} {
        ListsHoldAfterFile(cfg, obj, files, n, RelPath(items[0].name), items[0].content);
      } else {
        assert files + f == files;
      }
      FirstPassLists(cfg, obj, NoteItem(cfg, obj, n, items[0]), files + f, items[1..]);
      assert files + f + Contents(items[1..]).Keys == files + Contents(items).Keys;
    }
  }

  lemma ExistAppend(a: seq<Listing>, b: seq<Listing>, files: set<string>)
    ensures ListedFilesExist(a + b, files) == (ListedFilesExist(a, files) && ListedFilesExist(b, files))
  {
    if ListedFilesExist(a + b, files) {
      assert forall i :: 0 <= i < |a| ==> (a + b)[i] == a[i];
      assert forall i :: 0 <= i < |b| ==> (a + b)[|a| + i] == b[i];
    }
  }

  lemma ListingsOfFirst(alg: Algorithm, es: seq<Entry>)
    requires |es| > 0
    ensures ToListings(alg, es) == [Listing(alg, es[0].digest, es[0].path)] + ToListings(alg, es[1..])
  {
  }

  lemma {:induction false} FailureIsRemembered(obj: string, alg: Algorithm, s: Progress, es: seq<Entry>)
    requires s.failed
    ensures TakeEntries(obj, alg, s, es).failed && TakeEntries(obj, alg, s, es).tags == s.tags
    decreases |es|
  {
    if |es| > 0 {
      FailureIsRemembered(obj, alg, TakeEntry(obj, alg, s, es[0]), es[1..]);
    }
  }

  /** A manifest is taken without an error exactly when all its files exist, and then the
      database gives the digests listed last. */
  lemma {:induction false} EntriesTaken(cfg: Config, obj: string, alg: Algorithm, s: Progress, es: seq<Entry>,
                                        c: map<string, string>, ls: seq<Listing>)
    requires Holds(s.db, cfg, obj, c, ls) && !s.failed
    ensures var r := TakeEntries(obj, alg, s, es);
            && r.failed == !ListedFilesExist(ToListings(alg, es), c.Keys) && r.tags == s.tags
            && (!r.failed ==> Holds(r.db, cfg, obj, c, ls + ToListings(alg, es)))
    decreases |es|
  {
    if |es| == 0 {
      Nothing(ls);
    } else {
      var l := Listing(alg, es[0].digest, es[0].path);
      ListingsOfFirst(alg, es);
      ExistAppend([l], ToListings(alg, es[1..]), c.Keys);
      KnownIffInBag(s.db, cfg, obj, c, ls, l.path);
      assert [l][0] == l;
      if l.path in c {
        HoldsAfterLine(s.db, cfg, obj, c, ls, l);
        EntriesTaken(cfg, obj, alg, TakeEntry(obj, alg, s, es[0]), es[1..], c, ls + [l]);
        Assoc(ls, [l], ToListings(alg, es[1..]));
      } else {
        FailureIsRemembered(obj, alg, TakeEntry(obj, alg, s, es[0]), es[1..]);
      }
    }
  }

  lemma FileTaken(cfg: Config, obj: string, n: Notes, s: Progress, item: Item, c: map<string, string>, ls: seq<Listing>)
    requires item.Header? && Holds(s.db, cfg, obj, c, ls) && !s.failed && ListsHold(cfg, c.Keys, n)
    ensures var r := TakeItem(cfg, obj, n, s, item);
            && r.failed == !(&& (item.kind.Directory? || RelPath(item.name) in c)
                             && ListedFilesExist(ListingsIn(cfg, item), c.Keys)
                             && (IsTagEntry(cfg, item) ==> !ScanFails(item.content)))
            && (!r.failed ==> Holds(r.db, cfg, obj, c, ls + ListingsIn(cfg, item)))
            && (!r.failed ==> r.tags == s.tags + TagsIn(cfg, item))
  {
    var path := RelPath(item.name);
    Nothing(ls);
    Nothing(s.tags);
    KnownIffInBag(s.db, cfg, obj, c, ls, path);
    if path in c && !cfg.IsTagFile(path) && IsManifestName(path) && AlgorithmOf(path).Some? {
      EntriesTaken(cfg, obj, AlgorithmOf(path).value, s, Parse(item.content), c, ls);
    }
  }

  lemma {:induction false} DamageIsRemembered(cfg: Config, obj: string, n: Notes, s: Progress, items: seq<Item>)
    requires s.failed
    ensures TakeItems(cfg, obj, n, s, items).failed
    decreases |items|
  {
    if |items| > 0 {
      var item := items[0];
      if item.Header? && AlgorithmOf(RelPath(item.name)).Some? {
        FailureIsRemembered(obj, AlgorithmOf(RelPath(item.name)).value, s, Parse(item.content));
      }
      DamageIsRemembered(cfg, obj, n, TakeItem(cfg, obj, n, s, item), items[1..]);
    }
  }

  lemma EntriesFirst(items: seq<Item>, files: set<string>)
    requires |items| > 0 && items[0].Header?
    ensures EntriesAreFiles(items, files) ==
            ((items[0].kind.Directory? || RelPath(items[0].name) in files) && EntriesAreFiles(items[1..], files))
  {
    assert forall i :: 0 < i < |items| ==> items[1..][i - 1] == items[i];
  }

  lemma TagFilesFirst(cfg: Config, items: seq<Item>)
    requires |items| > 0
    ensures TagFilesRead(cfg, items) ==
            ((IsTagEntry(cfg, items[0]) ==> !ScanFails(items[0].content)) && TagFilesRead(cfg, items[1..]))
  {
    assert forall i :: 0 < i < |items| ==> items[1..][i - 1] == items[i];
  }

  lemma {:induction false} SecondPassTaken(cfg: Config, obj: string, n: Notes, s: Progress, items: seq<Item>,
                                           c: map<string, string>, ls: seq<Listing>)
    requires Readable(items) && Holds(s.db, cfg, obj, c, ls) && !s.failed && ListsHold(cfg, c.Keys, n)
    ensures var r := TakeItems(cfg, obj, n, s, items);
            && r.failed == !(&& EntriesAreFiles(items, c.Keys) && ListedFilesExist(Listings(cfg, items), c.Keys)
                             && TagFilesRead(cfg, items))
            && (!r.failed ==> Holds(r.db, cfg, obj, c, ls + Listings(cfg, items)))
            && (!r.failed ==> r.tags == s.tags + TagsOf(cfg, items))
    decreases |items|
  {
    if |items| == 0 {
      Nothing(ls);
      Nothing(s.tags);
    } else {
      var s', here, rest := TakeItem(cfg, obj, n, s, items[0]), ListingsIn(cfg, items[0]), Listings(cfg, items[1..]);
      FileTaken(cfg, obj, n, s, items[0], c, ls);
      EntriesFirst(items, c.Keys);
      TagFilesFirst(cfg, items);
      ExistAppend(here, rest, c.Keys);
      if s'.failed {
        DamageIsRemembered(cfg, obj, n, s', items[1..]);
      } else {
        SecondPassTaken(cfg, obj, n, s', items[1..], c, ls + here);
        Assoc(ls, here, rest);
        Assoc(s.tags, TagsIn(cfg, items[0]), TagsOf(cfg, items[1..]));
      }
    }
  }

  lemma RecordOkIffFileOk(cfg: Config, path: string, content: string, ls: seq<Listing>)
    ensures RecordOk(cfg, path, RecordOf(cfg, path, content, ls)) <==> FileOk(cfg, ls, path, content)
  {
    assert FileTypeOf(path).PayloadFile? <==> "data/" <= path by {
      if "data/" <= path {
        assert path[0] == 'd';
      }
    }
  }

  lemma RecordsOkIffFilesOk(db: Database, cfg: Config, obj: string, contents: map<string, string>, ls: seq<Listing>)
    requires Holds(db, cfg, obj, contents, ls)
    ensures RecordsOk(cfg, obj, db) <==> FilesOk(cfg, ls, contents)
  {
    forall p | p in contents
      ensures Identifier(obj, p) in db && OriginalPath(Identifier(obj, p), obj) == p
      ensures RecordOk(cfg, p, db[Identifier(obj, p)]) <==> FileOk(cfg, ls, p, contents[p])
    {
      OriginalPathOfIdentifier(obj, p);
      RecordOkIffFileOk(cfg, p, contents[p], ls);
    }
    forall id | id in db
      ensures OriginalPath(id, obj) in contents && Identifier(obj, OriginalPath(id, obj)) == id
    {
      var p :| p in contents && Identifier(obj, p) == id;
      OriginalPathOfIdentifier(obj, p);
    }
  }

  lemma FoldersOkIffOneFolder(items: seq<Item>, dir: string)
    ensures FoldersOk(TopDirs(items), dir) <==> OneFolder(items, dir)
  {
    var dirs := TopDirs(items);
    if FoldersOk(dirs, dir) {
      forall i | 0 <= i < |items| && items[i].Header? ensures TopDir(items[i].name) == dir {
        TopDirsCollects(items, TopDir(items[i].name));
      }
    }
    if OneFolder(items, dir) {
      forall i | 0 <= i < |dirs| ensures dirs[i] == dir {
        TopDirsCollects(items, dirs[i]);
      }
    }
  }

  lemma ManifestNotedIffPresent(cfg: Config, contents: map<string, string>, n: Notes)
    requires ListsHold(cfg, contents.Keys, n)
    ensures n.manifests != [] <==> HasPayloadManifest(contents)
    ensures NotedSpecsOk(cfg, n.required, n.forbidden) <==> SpecsOk(cfg, contents)
  {
    if n.manifests != [] {
      assert n.manifests[0] in n.manifests;
    }
    forall p | p in cfg.fileSpecs ensures NotedSpecOk(cfg, n.required, n.forbidden, p) <==> SpecOk(cfg, contents, p) {
    }
  }

  /** What the two passes and the final checks decide is the validity of the bag. */
  lemma PassesDecideValidity(cfg: Config, obj: string, items: seq<Item>, dir: string)
    requires Readable(items)
    ensures var n := NoteItems(cfg, obj, NOTHING, items);
            var s := TakeItems(cfg, obj, n, Progress(n.db, [], false), items);
            ValidBag(cfg, items, dir) <==>
            && !s.failed && n.manifests != [] && FoldersOk(TopDirs(items), dir)
            && NotedSpecsOk(cfg, n.required, n.forbidden) && RecordsOk(cfg, obj, s.db)
            && TagsOk(TagSet(s.tags), cfg.tagSpecs, cfg.fold)
  {
    var contents, ls := Contents(items), Listings(cfg, items);
    var n := NoteItems(cfg, obj, NOTHING, items);
    UnionEmpty(contents);
    Nothing(ls);
    assert {} + contents.Keys == contents.Keys;
    FirstPassHolds(cfg, obj, NOTHING, map[], items);
    FirstPassLists(cfg, obj, NOTHING, {}, items);
    Nothing(TagsOf(cfg, items));
    var s := TakeItems(cfg, obj, n, Progress(n.db, [], false), items);
    SecondPassTaken(cfg, obj, n, Progress(n.db, [], false), items, contents, []);
    FoldersOkIffOneFolder(items, dir);
    ManifestNotedIffPresent(cfg, contents, n);
    if !s.failed {
      RecordsOkIffFilesOk(s.db, cfg, obj, contents, ls);
    }
  }
}
