/** The storer's pass over a bag (workers/apt_storer.go): which files are saved, the batches,
    the collected errors, and what becomes of the item after each delivery. */
module Storer {
  import opened Collections
  import opened WorkSummaries
  import opened Options
  import opened Storing

  /** What the storer learns of a file before it decides whether to save it. */
  datatype Lookup = JunkListed | NotSavable | LookupFailed | NoPrevious | UuidUnknown | Previous(same: bool)

  datatype FileAnswers = FileAnswers(lookup: Lookup, storage: Answers, replication: Answers, saved: bool, cleaned: bool)

  /** A file as the database, the disk and the buckets keep it between deliveries. */
  datatype Record = Record(file: File, temp: Option<string>, log: seq<Upload>)

  datatype Saved = Saved(record: Record, result: Summary)

  // ----- one file -----

  /** An unknown UUID is a fatal error, yet the file is still copied. */
  function Decide(s: Saving, lookup: Lookup): Saving {
    match lookup
    case JunkListed => s.(file := s.file.(needsSave := true))
    case NotSavable => s.(file := s.file.(needsSave := false))
    case UuidUnknown => s.(result := s.result.WithError("no UUID").Fatal())
    case Previous(same) => s.(file := s.file.(uuidOk := true, needsSave := s.file.needsSave && !same))
    case LookupFailed => s.(result := s.result.WithError("no lookup"))
    case NoPrevious => s
  }

  function CopyFirst(s: Saving, content: string, a: FileAnswers): Saving {
    if !s.file.storedAt || s.file.storageUrl == "" then
      Copy(s, content, if s.file.option == Standard then S3 else Region, a.storage)
    else s
  }

  function CopySecond(s: Saving, content: string, a: FileAnswers): Saving {
    if s.file.option == Standard && (!s.file.replicatedAt || s.file.replicationUrl == "") then
      Copy(s, content, Glacier, a.replication)
    else s
  }

  function CopyBoth(s: Saving, content: string, a: FileAnswers): Saving {
    if s.file.needsSave then CopySecond(CopyFirst(s, content, a), content, a) else s
  }

  predicate Settled(file: File) {
    file.needsSave ==> file.storedAt && (file.option == Standard ==> file.replicatedAt)
  }

  function TempAfter(s: Job, cleaned: bool): Option<string> {
    if s.file.needsSave && Settled(s.file) && cleaned then None else s.temp
  }

  function Start(r: Record, option: Option<StorageOption>): Saving {
    Job(if option.Some? then r.file.(option := option.value) else r.file, r.temp, r.log, FRESH)
  }

  /** What the database and the disk keep of a copied file: its record is updated only if
      the database can be written. */
  function Recorded(r: Record, c: Saving, a: FileAnswers): (out: Saved)
    ensures out.result.Bounded()
  {
    Saved(Record(if a.saved then c.file else r.file, TempAfter(c, a.cleaned), c.log),
          if a.saved then c.result else c.result.WithError("cannot save record"))
  }

  /** saveFile. */
  function Save(r: Record, content: string, option: Option<StorageOption>, a: FileAnswers): (out: Saved)
    ensures out.result.Bounded()
  {
    var s := Decide(Start(r, option), a.lookup);
    if a.lookup.LookupFailed? then Saved(r, s.result) else Recorded(r, CopyBoth(s, content, a), a)
  }

  predicate RecordSound(r: Record, content: string) {
    Sound(r.file, r.log, content)
  }

  predicate HonestFile(a: FileAnswers) {
    HonestAnswers(a.storage) && HonestAnswers(a.replication)
  }

  lemma CopyFirstKeeps(s: Saving, content: string, a: FileAnswers)
    requires Sound(s.file, s.log, content)
    ensures var r := CopyFirst(s, content, a);
            Follows(s, r) && Sound(r.file, r.log, content) && (r.result.HasErrors() || r.file.storedAt)
    ensures HonestlyListed(s.log) && HonestFile(a) ==> HonestlyListed(CopyFirst(s, content, a).log)
  {
    var to := if s.file.option == Standard then S3 else Region;
    CopyKeeps(s, content, to, a.storage);
    CopyDecides(s, content, to, a.storage);
  }

  lemma CopySecondKeeps(s: Saving, content: string, a: FileAnswers)
    requires Sound(s.file, s.log, content)
    ensures var r := CopySecond(s, content, a);
            Follows(s, r) && Sound(r.file, r.log, content) &&
            (r.result.HasErrors() || r.file.option != Standard || r.file.replicatedAt)
    ensures HonestlyListed(s.log) && HonestFile(a) ==> HonestlyListed(CopySecond(s, content, a).log)
  {
    CopyKeeps(s, content, Glacier, a.replication);
    CopyDecides(s, content, Glacier, a.replication);
  }

  lemma CopyBothKeeps(s: Saving, content: string, a: FileAnswers)
    requires Sound(s.file, s.log, content)
    ensures var r := CopyBoth(s, content, a);
            Follows(s, r) && Sound(r.file, r.log, content) && (r.result.HasErrors() || Settled(r.file))
    ensures HonestlyListed(s.log) && HonestFile(a) ==> HonestlyListed(CopyBoth(s, content, a).log)
  {
    if s.file.needsSave {
      CopyFirstKeeps(s, content, a);
      CopySecondKeeps(CopyFirst(s, content, a), content, a);
    }
  }

  /** A longer log is still sound for the record as it was. */
  lemma OldRecordStaysSound(file: File, newer: File, log: seq<Upload>, longer: seq<Upload>, content: string)
    requires Sound(file, log, content) && Sound(newer, longer, content) && newer.size == file.size && log <= longer
    ensures Sound(file, longer, content)
  {
    if file.storedAt {
      var i :| 0 <= i < |log| && log[i].to != Glacier && Accepted(log[i], file.size) &&
        log[i].location == file.storageUrl;
      assert longer[i] == log[i];
    }
    if file.replicatedAt {
      var i :| 0 <= i < |log| && log[i].to == Glacier && Accepted(log[i], file.size) &&
        log[i].location == file.replicationUrl;
      assert longer[i] == log[i];
    }
  }

  lemma DecideKeeps(r: Record, content: string, option: Option<StorageOption>, lookup: Lookup)
    requires RecordSound(r, content)
    ensures var s := Decide(Start(r, option), lookup);
            Sound(s.file, s.log, content) && s.log == r.log && s.file.size == r.file.size
    ensures lookup.LookupFailed? ==> Decide(Start(r, option), lookup).result.HasErrors()
  {
  }

  lemma RecordedKeeps(r: Record, content: string, c: Saving, a: FileAnswers)
    requires RecordSound(r, content) && Sound(c.file, c.log, content)
    requires r.log <= c.log && c.file.size == r.file.size && (c.result.HasErrors() || Settled(c.file))
    ensures var out := Recorded(r, c, a);
            && RecordSound(out.record, content) && out.record.file.size == r.file.size && out.record.log == c.log
            && (out.result.HasErrors() || Settled(out.record.file))
  {
    OldRecordStaysSound(r.file, c.file, r.log, c.log, content);
  }

  /** Saving a file, whatever happens, marks nothing that was not checked, and ends with an
      error unless the file needs no saving or is marked. */
  lemma SaveKeeps(r: Record, content: string, option: Option<StorageOption>, a: FileAnswers)
    requires RecordSound(r, content)
    ensures var out := Save(r, content, option, a);
            && RecordSound(out.record, content) && out.record.file.size == r.file.size
            && (out.result.HasErrors() || Settled(out.record.file))
            && (HonestlyListed(r.log) && HonestFile(a) ==> HonestlyListed(out.record.log))
  {
    DecideKeeps(r, content, option, a.lookup);
    var s := Decide(Start(r, option), a.lookup);
    if !a.lookup.LookupFailed? {
      CopyBothKeeps(s, content, a);
      RecordedKeeps(r, content, CopyBoth(s, content, a), a);
    }
  }

  // ----- a batch -----

  /** What a delivery meets: the database may be missing or unreadable, the bag may be
      refused for its size, and the storage option may be forced to an earlier one. */
  datatype Opening = Missing | Unopened | Refused | Opened(option: Option<StorageOption>, manySmallFiles: bool)

  datatype Delivery = Delivery(opening: Opening, unreadable: set<nat>, files: seq<FileAnswers>)

  /** The bag's files in key order, with their contents in the tar file, and the result. */
  datatype Bag = Bag(records: seq<Record>, contents: seq<string>, result: Summary)
  {
    predicate Valid() {
      |records| == |contents| && result.Bounded()
    }
  }

  predicate Fits(b: Bag, d: Delivery) {
    b.Valid() && |d.files| == |b.records|
  }

  function SaveAt(b: Bag, i: nat, option: Option<StorageOption>, d: Delivery): Saved
    requires Fits(b, d) && i < |b.records|
  {
    Save(b.records[i], b.contents[i], option, d.files[i])
  }

  function SaveEach(b: Bag, option: Option<StorageOption>, d: Delivery): (r: seq<Saved>)
    requires Fits(b, d)
    ensures |r| == |b.records| && forall i :: 0 <= i < |r| ==> r[i] == SaveAt(b, i, option, d)
  {
    seq(|b.records|, i requires 0 <= i < |b.records| => SaveAt(b, i, option, d))
  }

  function Replaced(records: seq<Record>, saved: seq<Saved>, lo: nat, hi: nat): (r: seq<Record>)
    requires |saved| == |records| && lo <= hi <= |records|
    ensures |r| == |records| &&
            forall i :: 0 <= i < |r| ==> r[i] == if lo <= i < hi then saved[i].record else records[i]
  {
    seq(|records|, i requires 0 <= i < |records| => if lo <= i < hi then saved[i].record else records[i])
  }

  function ResultsOf(saved: seq<Saved>, lo: nat, hi: nat): (r: seq<Summary>)
    requires lo <= hi <= |saved|
    ensures |r| == hi - lo && forall k :: 0 <= k < |r| ==> r[k] == saved[lo + k].result
  {
    seq(hi - lo, k requires 0 <= k < hi - lo => saved[lo + k].result)
  }

  lemma RangeStep(records: seq<Record>, saved: seq<Saved>, lo: nat, i: nat)
    requires |saved| == |records| && lo <= i < |records|
    ensures Replaced(records, saved, lo, i)[i] == records[i]
    ensures Replaced(records, saved, lo, i + 1) == Replaced(records, saved, lo, i)[i := saved[i].record]
    ensures ResultsOf(saved, lo, i + 1) == ResultsOf(saved, lo, i) + [saved[i].result]
  {
  }

  lemma EmptyRange(records: seq<Record>, saved: seq<Saved>, lo: nat)
    requires |saved| == |records| && lo <= |records|
    ensures Replaced(records, saved, lo, lo) == records && ResultsOf(saved, lo, lo) == []
  {
  }

  /** The records after the goroutines of one batch have all ended. */
  function SavedRange(b: Bag, lo: nat, hi: nat, option: Option<StorageOption>, d: Delivery): (r: seq<Record>)
    requires Fits(b, d) && lo <= hi <= |b.records|
    ensures |r| == |b.records|
    ensures forall i :: 0 <= i < |r| ==> r[i] == if lo <= i < hi then SaveAt(b, i, option, d).record else b.records[i]
  {
    Replaced(b.records, SaveEach(b, option, d), lo, hi)
  }

  function Results(b: Bag, lo: nat, hi: nat, option: Option<StorageOption>, d: Delivery): (r: seq<Summary>)
    requires Fits(b, d) && lo <= hi <= |b.records|
    ensures |r| == hi - lo && forall k :: 0 <= k < |r| ==> r[k] == SaveAt(b, lo + k, option, d).result
  {
    ResultsOf(SaveEach(b, option, d), lo, hi)
  }

  /** The records after saving the files at the given places, one after the other. */
  function SavedInOrder(b: Bag, order: seq<nat>, option: Option<StorageOption>, d: Delivery): (r: seq<Record>)
    requires Fits(b, d) && forall k :: 0 <= k < |order| ==> order[k] < |b.records|
    ensures |r| == |b.records|
    decreases |order|
  {
    if |order| == 0 then b.records
    else
      var next := b.records[order[0] := SaveAt(b, order[0], option, d).record];
      SavedInOrder(b.(records := next), order[1..], option, d)
  }

  lemma {:induction false} SavedInOrderAt(b: Bag, order: seq<nat>, option: Option<StorageOption>, d: Delivery, i: nat)
    requires Fits(b, d) && forall k :: 0 <= k < |order| ==> order[k] < |b.records|
    requires forall j, k :: 0 <= j < k < |order| ==> order[j] != order[k]
    requires i < |b.records|
    ensures SavedInOrder(b, order, option, d)[i] == if i in order then SaveAt(b, i, option, d).record else b.records[i]
    decreases |order|
  {
    if |order| > 0 {
      var next := b.(records := b.records[order[0] := SaveAt(b, order[0], option, d).record]);
      SavedInOrderAt(next, order[1..], option, d, i);
      assert order == [order[0]] + order[1..];
      assert order[0] !in order[1..];
    }
  }

  /** The goroutines of a batch may end in any order: the outcome is the same. */
  lemma AnyOrder(b: Bag, order: seq<nat>, lo: nat, hi: nat, option: Option<StorageOption>, d: Delivery)
    requires Fits(b, d) && lo <= hi <= |b.records|
    requires forall k :: 0 <= k < |order| ==> lo <= order[k] < hi
    requires forall i: nat :: lo <= i < hi ==> i in order
    requires forall j, k :: 0 <= j < k < |order| ==> order[j] != order[k]
    ensures SavedInOrder(b, order, option, d) == SavedRange(b, lo, hi, option, d)
  {
    forall i: nat | i < |b.records|
      ensures SavedInOrder(b, order, option, d)[i] == SavedRange(b, lo, hi, option, d)[i]
    {
      SavedInOrderAt(b, order, option, d, i);
    }
  }

  /** The files' errors, in order, up to the first file whose error is fatal. */
  function Collected(s: Summary, results: seq<Summary>): (r: Summary)
    requires s.Bounded()
    ensures r.Bounded() && (s.HasErrors() ==> r.HasErrors()) && r.attemptNumber == s.attemptNumber
    decreases |results|
  {
    if |results| == 0 then s
    else
      var t := s.WithErrors(results[0].errors);
      if results[0].errorIsFatal then t.Fatal() else Collected(t, results[1..])
  }

  /** Errors are only lost behind a fatal one. */
  lemma {:induction false} NoErrorIsLost(s: Summary, results: seq<Summary>)
    requires s.Bounded() && forall k :: 0 <= k < |results| ==> (results[k].errorIsFatal ==> results[k].HasErrors())
    ensures !Collected(s, results).HasErrors() ==> forall k :: 0 <= k < |results| ==> !results[k].HasErrors()
    decreases |results|
  {
    if |results| > 0 {
      NoErrorIsLost(s.WithErrors(results[0].errors), results[1..]);
      assert results == [results[0]] + results[1..];
    }
  }

  // ----- the batches of a delivery -----

  function BatchEnd(start: nat, limit: int, count: nat): (end: nat)
    requires start <= count
    ensures start <= end <= count
  {
    if limit <= 0 then start else if start + limit < count then start + limit else count
  }

  function AfterBatch(b: Bag, start: nat, limit: int, option: Option<StorageOption>, d: Delivery): (r: Bag)
    requires Fits(b, d) && start <= |b.records|
    ensures Fits(r, d) && |r.records| == |b.records|
  {
    var end := BatchEnd(start, limit, |b.records|);
    Bag(SavedRange(b, start, end, option, d), b.contents, Collected(b.result, Results(b, start, end, option, d)))
  }

  /** A batch as long as the limit is taken to mean that there are more files. */
  predicate HasMore(start: nat, limit: int, count: nat)
    requires start <= count
  {
    BatchEnd(start, limit, count) - start == limit
  }

  function Batches(b: Bag, start: nat, limit: int, option: Option<StorageOption>, d: Delivery): (r: Bag)
    requires Fits(b, d) && start <= |b.records| && limit != 0
    ensures r.Valid() && |r.records| == |b.records| && r.contents == b.contents
    ensures b.result.HasErrors() ==> r.result.HasErrors()
    ensures r.result.attemptNumber == b.result.attemptNumber
    decreases |b.records| - start
  {
    if start in d.unreadable then b.(result := b.result.WithError("unreadable").Fatal())
    else
      var next := AfterBatch(b, start, limit, option, d);
      var end := BatchEnd(start, limit, |b.records|);
      if HasMore(start, limit, |b.records|) then Batches(next, end, limit, option, d) else next
  }

  /** A limit of zero, the zero value of the setting, is no limit the loop ever gets past:
      every batch is empty, changes nothing, and is followed by the same one again. */
  lemma LimitZeroNeverEnds(b: Bag, start: nat, option: Option<StorageOption>, d: Delivery)
    requires Fits(b, d) && start <= |b.records|
    ensures HasMore(start, 0, |b.records|) && BatchEnd(start, 0, |b.records|) == start &&
            AfterBatch(b, start, 0, option, d) == b
  {
    EmptyRange(b.records, SaveEach(b, option, d), start);
  }

  predicate Touched(b: Bag, records: seq<Record>, option: Option<StorageOption>, d: Delivery)
    requires Fits(b, d)
  {
    |records| == |b.records| &&
    forall i :: 0 <= i < |records| ==> records[i] == b.records[i] || records[i] == SaveAt(b, i, option, d).record
  }

  lemma FatalHasErrors(r: Record, content: string, option: Option<StorageOption>, a: FileAnswers)
    ensures Save(r, content, option, a).result.errorIsFatal ==> Save(r, content, option, a).result.HasErrors()
  {
    var s := Decide(Start(r, option), a.lookup);
    if !a.lookup.LookupFailed? && s.file.needsSave {
      FirstFatalHasErrors(s, content, a);
      SecondFatalHasErrors(CopyFirst(s, content, a), content, a);
    }
  }

  predicate FatalOnlyWithErrors(s: Summary) {
    s.errorIsFatal ==> s.HasErrors()
  }

  lemma UploadFatalHasErrors(s: Saving, content: string, to: Target, n: nat, a: Answer)
    requires FatalOnlyWithErrors(s.result)
    ensures FatalOnlyWithErrors(DoUpload(s, content, to, n, a).result)
  {
  }

  lemma {:induction false} CopyFatalHasErrors(s: Saving, content: string, to: Target, n: nat, answers: Answers)
    requires 1 <= n <= MAX_UPLOAD_ATTEMPTS + 1 && FatalOnlyWithErrors(s.result)
    ensures FatalOnlyWithErrors(CopyFrom(s, content, to, n, answers).result)
    decreases MAX_UPLOAD_ATTEMPTS + 1 - n
  {
    if n <= MAX_UPLOAD_ATTEMPTS {
      UploadFatalHasErrors(s, content, to, n, answers[n - 1]);
      CopyFatalHasErrors(DoUpload(s, content, to, n, answers[n - 1]), content, to, n + 1, answers);
    }
  }

  lemma FirstFatalHasErrors(s: Saving, content: string, a: FileAnswers)
    requires FatalOnlyWithErrors(s.result)
    ensures FatalOnlyWithErrors(CopyFirst(s, content, a).result)
  {
    CopyFatalHasErrors(s, content, if s.file.option == Standard then S3 else Region, 1, a.storage);
  }

  lemma SecondFatalHasErrors(s: Saving, content: string, a: FileAnswers)
    requires FatalOnlyWithErrors(s.result)
    ensures FatalOnlyWithErrors(CopySecond(s, content, a).result)
  {
    CopyFatalHasErrors(s, content, Glacier, 1, a.replication);
  }

  lemma ResultsFatal(b: Bag, lo: nat, hi: nat, option: Option<StorageOption>, d: Delivery)
    requires Fits(b, d) && lo <= hi <= |b.records|
    ensures var rs := Results(b, lo, hi, option, d);
            forall k :: 0 <= k < |rs| ==> rs[k].errorIsFatal ==> rs[k].HasErrors()
  {
    var rs := Results(b, lo, hi, option, d);
    forall k | 0 <= k < |rs| ensures rs[k].errorIsFatal ==> rs[k].HasErrors() {
      FatalHasErrors(b.records[lo + k], b.contents[lo + k], option, d.files[lo + k]);
    }
  }

  /** A batch that leaves no error saved each of its files without an error. */
  lemma CleanBatch(b: Bag, start: nat, limit: int, option: Option<StorageOption>, d: Delivery, i: nat)
    requires Fits(b, d) && start <= |b.records| && start <= i < BatchEnd(start, limit, |b.records|)
    requires !AfterBatch(b, start, limit, option, d).result.HasErrors()
    ensures !SaveAt(b, i, option, d).result.HasErrors()
  {
    var results := Results(b, start, BatchEnd(start, limit, |b.records|), option, d);
    ResultsFatal(b, start, BatchEnd(start, limit, |b.records|), option, d);
    NoErrorIsLost(b.result, results);
    assert !results[i - start].HasErrors();
  }

  /** The batches save a file at most once each, and touch no file before `start`. */
  lemma {:induction false} BatchesTouch(b: Bag, start: nat, limit: int, option: Option<StorageOption>, d: Delivery)
    requires Fits(b, d) && start <= |b.records| && limit != 0
    ensures Touched(b, Batches(b, start, limit, option, d).records, option, d)
    ensures forall i :: 0 <= i < start ==> Batches(b, start, limit, option, d).records[i] == b.records[i]
    decreases |b.records| - start
  {
    if start !in d.unreadable && HasMore(start, limit, |b.records|) {
      BatchesTouch(AfterBatch(b, start, limit, option, d), BatchEnd(start, limit, |b.records|), limit, option, d);
    }
  }

  /** With a positive limit, batches that leave no error saved every file without an error. */
  lemma {:induction false} CleanBatches(b: Bag, start: nat, limit: int, option: Option<StorageOption>, d: Delivery,
                                        i: nat)
    requires Fits(b, d) && start <= i < |b.records| && limit > 0
    requires !Batches(b, start, limit, option, d).result.HasErrors()
    ensures Batches(b, start, limit, option, d).records[i] == SaveAt(b, i, option, d).record
    ensures !SaveAt(b, i, option, d).result.HasErrors()
    decreases |b.records| - start
  {
    var next := AfterBatch(b, start, limit, option, d);
    var end := BatchEnd(start, limit, |b.records|);
    if i < end {
      CleanBatch(b, start, limit, option, d, i);
    }
    if HasMore(start, limit, |b.records|) {
      BatchesTouch(next, end, limit, option, d);
      if end <= i {
        CleanBatches(next, end, limit, option, d, i);
      }
    }
  }

  // ----- deliveries -----

  datatype Verdict = Failed | Requeued | Pushed

  /** Errors that earlier stages of the ingest left in the manifest. */
  datatype Others = Others(errors: bool, fatal: bool)

  datatype Settings = Settings(limit: int, maxAttempts: nat, others: Others)

  function Limit(cfg: Settings, d: Delivery): int {
    if d.opening.Opened? && d.opening.manySmallFiles then cfg.limit * 20 else cfg.limit
  }

  function Begun(b: Bag): (r: Bag)
    requires b.Valid()
    ensures r.Valid()
  {
    b.(result := b.result.Cleared().Begun())
  }

  function Store(b: Bag, cfg: Settings, d: Delivery): (r: Bag)
    requires Fits(b, d) && cfg.limit != 0
    ensures Fits(r, d) && r.contents == b.contents && r.result.attemptNumber == Next(b.result.attemptNumber)
  {
    var s := Begun(b);
    match d.opening
    case Missing => s.(result := s.result.WithError("database missing").Fatal())
    case Unopened => s.(result := s.result.WithError("cannot open"))
    case Refused => s.(result := s.result.WithError("another high resource bag is in progress"))
    case Opened(option, _) => Batches(s, 0, Limit(cfg, d), option, d)
  }

  function Judge(result: Summary, cfg: Settings): Verdict {
    if result.errorIsFatal || cfg.others.fatal ||
      ((result.HasErrors() || cfg.others.errors) && result.attemptNumber >= cfg.maxAttempts) then Failed
    else if result.HasErrors() then Requeued
    else Pushed
  }

  function Deliver(b: Bag, cfg: Settings, d: Delivery): (r: (Verdict, Bag))
    requires Fits(b, d) && cfg.limit != 0
    ensures Fits(r.1, d) && r.1.contents == b.contents
    ensures r.1.result.attemptNumber == Next(b.result.attemptNumber)
    ensures r.0 == Requeued ==> r.1.result.attemptNumber < cfg.maxAttempts
  {
    var s := Store(b, cfg, d);
    (Judge(s.result, cfg), s.(result := s.result.Done()))
  }

  predicate AllFit(b: Bag, ds: seq<Delivery>) {
    b.Valid() && forall k :: 0 <= k < |ds| ==> |ds[k].files| == |b.records|
  }

  /** The bag after the deliveries, and the verdict on the last. */
  function Run(v: Verdict, b: Bag, cfg: Settings, ds: seq<Delivery>): (r: (Verdict, Bag))
    requires AllFit(b, ds) && cfg.limit != 0
    ensures |r.1.records| == |b.records| && r.1.contents == b.contents && r.1.Valid()
    decreases |ds|
  {
    if |ds| == 0 then (v, b)
    else
      var (next, after) := Deliver(b, cfg, ds[0]);
      Run(next, after, cfg, ds[1..])
  }

  predicate BagSound(b: Bag) {
    b.Valid() && forall i :: 0 <= i < |b.records| ==> RecordSound(b.records[i], b.contents[i])
  }

  predicate BagHonest(b: Bag) {
    forall i :: 0 <= i < |b.records| ==> HonestlyListed(b.records[i].log)
  }

  predicate HonestDelivery(d: Delivery) {
    forall i :: 0 <= i < |d.files| ==> HonestFile(d.files[i])
  }

  predicate BagSettled(b: Bag) {
    forall i :: 0 <= i < |b.records| ==> Settled(b.records[i].file)
  }

  lemma TouchedKeeps(b: Bag, r: Bag, option: Option<StorageOption>, d: Delivery)
    requires Fits(b, d) && BagSound(b) && r.Valid() && r.contents == b.contents && Touched(b, r.records, option, d)
    ensures BagSound(r)
    ensures BagHonest(b) && HonestDelivery(d) ==> BagHonest(r)
  {
    forall i | 0 <= i < |b.records|
      ensures RecordSound(r.records[i], r.contents[i])
      ensures BagHonest(b) && HonestDelivery(d) ==> HonestlyListed(r.records[i].log)
    {
      SaveKeeps(b.records[i], b.contents[i], option, d.files[i]);
    }
  }

  lemma DeliverKeeps(b: Bag, cfg: Settings, d: Delivery)
    requires Fits(b, d) && cfg.limit != 0 && BagSound(b)
    ensures BagSound(Deliver(b, cfg, d).1)
    ensures BagHonest(b) && HonestDelivery(d) ==> BagHonest(Deliver(b, cfg, d).1)
  {
    if d.opening.Opened? {
      BatchesTouch(Begun(b), 0, Limit(cfg, d), d.opening.option, d);
      TouchedKeeps(Begun(b), Store(b, cfg, d), d.opening.option, d);
    }
  }

  lemma PushedIsSettled(b: Bag, cfg: Settings, d: Delivery)
    requires Fits(b, d) && cfg.limit > 0 && BagSound(b) && Deliver(b, cfg, d).0 == Pushed
    ensures BagSettled(Deliver(b, cfg, d).1)
  {
    var s := Begun(b);
    var option := d.opening.option;
    forall i | 0 <= i < |b.records| ensures Settled(Store(b, cfg, d).records[i].file) {
      CleanBatches(s, 0, Limit(cfg, d), option, d, i);
      SaveKeeps(s.records[i], s.contents[i], option, d.files[i]);
    }
  }

  lemma {:induction false} RunKeeps(v: Verdict, b: Bag, cfg: Settings, ds: seq<Delivery>)
    requires AllFit(b, ds) && cfg.limit > 0 && BagSound(b) && (v == Pushed ==> BagSettled(b))
    ensures var r := Run(v, b, cfg, ds); BagSound(r.1) && (r.0 == Pushed ==> BagSettled(r.1))
    ensures BagHonest(b) && (forall k :: 0 <= k < |ds| ==> HonestDelivery(ds[k])) ==> BagHonest(Run(v, b, cfg, ds).1)
    decreases |ds|
  {
    if |ds| > 0 {
      var (next, after) := Deliver(b, cfg, ds[0]);
      DeliverKeeps(b, cfg, ds[0]);
      if next == Pushed {
        PushedIsSettled(b, cfg, ds[0]);
      }
      RunKeeps(next, after, cfg, ds[1..]);
    }
  }

  // ----- what a pushed item means -----

  /** Some upload to storage, or to the replication bucket, sent the whole content. */
  predicate SentWhole(log: seq<Upload>, content: string, replication: bool) {
    exists i :: 0 <= i < |log| && (log[i].to == Glacier) == replication && log[i].sent == content && !log[i].error
  }

  lemma MarkedMeansSentWhole(file: File, log: seq<Upload>, content: string)
    requires Sound(file, log, content) && HonestlyListed(log)
    ensures file.storedAt ==> |content| == file.size && SentWhole(log, content, false)
    ensures file.replicatedAt ==> |content| == file.size && SentWhole(log, content, true)
  {
    if file.storedAt {
      var i :| 0 <= i < |log| && log[i].to != Glacier && Accepted(log[i], file.size) &&
        log[i].location == file.storageUrl;
      assert log[i].listed == Some(|log[i].sent|);
    }
    if file.replicatedAt {
      var i :| 0 <= i < |log| && log[i].to == Glacier && Accepted(log[i], file.size) &&
        log[i].location == file.replicationUrl;
      assert log[i].listed == Some(|log[i].sent|);
    }
  }

  predicate New(b: Bag) {
    && b.Valid() && b.result == FRESH
    && forall i :: 0 <= i < |b.records| ==>
         b.records[i].log == [] && !b.records[i].file.storedAt && !b.records[i].file.replicatedAt
  }

  /** Whatever the deliveries met on the way, an item goes on to the recorder only when every
      file that needs saving is marked as stored, and as replicated if its option is
      Standard, each on an error-free upload that the bucket listed with the file's size. */
  lemma PushedBagIsStored(b: Bag, cfg: Settings, ds: seq<Delivery>)
    requires New(b) && AllFit(b, ds) && cfg.limit > 0
    requires Run(Requeued, b, cfg, ds).0 == Pushed
    ensures var r := Run(Requeued, b, cfg, ds).1; BagSettled(r) && BagSound(r)
  {
    RunKeeps(Requeued, b, cfg, ds);
  }

  /** If no bucket listed a size other than that of what it got, the whole content of every
      such file was sent, though the first upload of a large file sends nothing. */
  lemma PushedBagIsStoredWhole(b: Bag, cfg: Settings, ds: seq<Delivery>, i: nat)
    requires New(b) && AllFit(b, ds) && cfg.limit > 0 && forall k :: 0 <= k < |ds| ==> HonestDelivery(ds[k])
    requires Run(Requeued, b, cfg, ds).0 == Pushed
    requires i < |b.records| && Run(Requeued, b, cfg, ds).1.records[i].file.needsSave
    ensures var r := Run(Requeued, b, cfg, ds).1.records[i];
            && |b.contents[i]| == r.file.size && SentWhole(r.log, b.contents[i], false)
            && (r.file.option == Standard ==> SentWhole(r.log, b.contents[i], true))
  {
    RunKeeps(Requeued, b, cfg, ds);
    var r := Run(Requeued, b, cfg, ds).1;
    assert RecordSound(r.records[i], r.contents[i]) && Settled(r.records[i].file);
    MarkedMeansSentWhole(r.records[i].file, r.records[i].log, r.contents[i]);
  }

  /** A negative limit gives one empty batch: an item with no file stored is pushed. */
  lemma NegativeLimitPushesUnstored(b: Bag, cfg: Settings, d: Delivery)
    requires Fits(b, d) && cfg.limit < 0 && d.opening.Opened? && 0 !in d.unreadable &&
             cfg.others == Others(false, false)
    ensures Deliver(b, cfg, d).0 == Pushed && Deliver(b, cfg, d).1.records == b.records
  {
    var s := Begun(b);
    EmptyRange(s.records, SaveEach(s, d.opening.option, d), 0);
  }

  // ----- an end to the deliveries -----

  /** Every one of the deliveries is requeued. */
  predicate AlwaysRequeued(b: Bag, cfg: Settings, ds: seq<Delivery>)
    requires AllFit(b, ds) && cfg.limit != 0
    decreases |ds|
  {
    |ds| == 0 || (Deliver(b, cfg, ds[0]).0 == Requeued && AlwaysRequeued(Deliver(b, cfg, ds[0]).1, cfg, ds[1..]))
  }

  /** An item is requeued at most MaxAttempts - 1 times, whatever happens. */
  lemma {:induction false} RequeuesAreBounded(b: Bag, cfg: Settings, ds: seq<Delivery>)
    requires AllFit(b, ds) && cfg.limit != 0 && |ds| > 0 && cfg.maxAttempts < 0x1_0000 &&
             b.result.attemptNumber < 0xffff
    ensures AlwaysRequeued(b, cfg, ds) ==> b.result.attemptNumber + |ds| < cfg.maxAttempts
    decreases |ds|
  {
    var (next, after) := Deliver(b, cfg, ds[0]);
    if next == Requeued && |ds| > 1 {
      RequeuesAreBounded(after, cfg, ds[1..]);
    }
  }

  /** Being refused because another high-resource bag is in progress uses up the attempts, and
      so does finding the database locked, which a refusal leaves open. */
  lemma {:induction false} RefusalsUseUpAttempts(v: Verdict, b: Bag, cfg: Settings, ds: seq<Delivery>)
    requires AllFit(b, ds) && cfg.limit != 0 && |ds| > 0 && b.result.attemptNumber + |ds| < 0x1_0000
    requires !cfg.others.fatal && forall k :: 0 <= k < |ds| ==> ds[k].opening == Refused || ds[k].opening == Unopened
    ensures var r := Run(v, b, cfg, ds);
            r.1.records == b.records && (r.0 == Failed <==> b.result.attemptNumber + |ds| >= cfg.maxAttempts)
    decreases |ds|
  {
    var (next, after) := Deliver(b, cfg, ds[0]);
    if |ds| > 1 {
      RefusalsUseUpAttempts(next, after, cfg, ds[1..]);
    } else {
      assert Run(next, after, cfg, ds[1..]) == (next, after);
    }
  }

  // ----- a large file, nothing going wrong -----

  lemma LargeCopies(s: Saving, content: string, a: FileAnswers)
    requires s.file.needsSave && s.file.uuidOk && s.file.option == Standard && !s.file.storedAt && !s.file.replicatedAt
    requires Large(s.file) && |content| == s.file.size && s.temp == None
    requires AllFlawless(a.storage) && AllFlawless(a.replication)
    ensures var c := CopyBoth(s, content, a);
            && c.file == Mark(Mark(s.file, S3, a.storage[1].location), Glacier, a.replication[0].location)
            && c.result == s.result && c.temp == Some(content)
            && c.log == s.log +
               [CleanUpload(S3, "", a.storage[0].location), CleanUpload(S3, content, a.storage[1].location),
                                 CleanUpload(Glacier, content, a.replication[0].location)]
  {
    FlawlessLargeCopy(s, content, S3, a.storage);
    var first := CopyFirst(s, content, a);
    FlawlessCopy(first, content, Glacier, a.replication);
    var two := [CleanUpload(S3, "", a.storage[0].location), CleanUpload(S3, content, a.storage[1].location)];
    Assoc(s.log, two, [CleanUpload(Glacier, content, a.replication[0].location)]);
  }

  /** Nothing going wrong, a large Standard file is uploaded three times: to S3 without a
      byte, which the size check rejects, then to S3 and to Glacier whole. Its temporary file
      is gone afterwards. */
  lemma LargeStandardFile(r: Record, content: string, a: FileAnswers)
    requires r.file.needsSave && r.file.uuidOk && r.file.option == Standard && !r.file.storedAt && !r.file.replicatedAt
    requires Large(r.file) && |content| == r.file.size && r.temp == None
    requires AllFlawless(a.storage) && AllFlawless(a.replication) && a.lookup == NoPrevious && a.saved && a.cleaned
    ensures var out := Save(r, content, None, a);
            && out.record.log ==
               r.log + [CleanUpload(S3, "", a.storage[0].location), CleanUpload(S3, content, a.storage[1].location),
                                          CleanUpload(Glacier, content, a.replication[0].location)]
            && out.record.file.storedAt && out.record.file.replicatedAt && out.record.temp == None
            && !out.result.HasErrors()
  {
    LargeCopies(Start(r, None), content, a);
  }

  // ----- a stump on disk is for ever -----

  predicate Stuck(r: Record) {
    Large(r.file) && Stump(r.temp, r.file.size) && !r.file.storedAt && !r.file.replicatedAt
  }

  lemma CopyBothStump(s: Saving, content: string, a: FileAnswers)
    requires Large(s.file) && Stump(s.temp, s.file.size) && !s.file.storedAt && !s.file.replicatedAt
    ensures var c := CopyBoth(s, content, a);
            c.file == s.file && c.temp == s.temp && c.log == s.log && (s.file.needsSave ==> c.result.HasErrors())
  {
    StumpBlocks(s, content, if s.file.option == Standard then S3 else Region, a.storage);
    StumpBlocks(CopyFirst(s, content, a), content, Glacier, a.replication);
  }

  lemma RecordedStuck(r: Record, c: Saving, a: FileAnswers)
    requires Stuck(r) && Stuck(Record(c.file, c.temp, c.log)) && c.temp == r.temp
    ensures Stuck(Recorded(r, c, a).record) && Recorded(r, c, a).record.log == c.log
  {
  }

  lemma DecideStuck(r: Record, option: Option<StorageOption>, lookup: Lookup)
    requires Stuck(r)
    ensures var s := Decide(Start(r, option), lookup);
            Stuck(Record(s.file, s.temp, s.log)) && s.temp == r.temp && s.log == r.log
  {
  }

  lemma SaveStuck(r: Record, content: string, option: Option<StorageOption>, a: FileAnswers)
    requires Stuck(r)
    ensures Stuck(Save(r, content, option, a).record) && Save(r, content, option, a).record.log == r.log
  {
    DecideStuck(r, option, a.lookup);
    var s := Decide(Start(r, option), a.lookup);
    if !a.lookup.LookupFailed? {
      CopyBothStump(s, content, a);
      RecordedStuck(r, CopyBoth(s, content, a), a);
    }
  }

  /** A large file whose temporary file is a stump is uploaded by no later delivery. */
  lemma {:induction false} StumpIsForever(v: Verdict, b: Bag, cfg: Settings, ds: seq<Delivery>, i: nat)
    requires AllFit(b, ds) && cfg.limit != 0 && i < |b.records| && Stuck(b.records[i])
    ensures var r := Run(v, b, cfg, ds).1.records[i]; Stuck(r) && r.log == b.records[i].log
    decreases |ds|
  {
    if |ds| > 0 {
      var d := ds[0];
      var (next, after) := Deliver(b, cfg, d);
      if d.opening.Opened? {
        BatchesTouch(Begun(b), 0, Limit(cfg, d), d.opening.option, d);
        SaveStuck(b.records[i], b.contents[i], d.opening.option, d.files[i]);
      }
      StumpIsForever(next, after, cfg, ds[1..], i);
    }
  }

  // ----- in place -----

  /** The part of saveFile that decides whether the file is saved. */
  method ApplyLookup(s: StorageSummary, lookup: Lookup)
    requires s.Valid()
    modifies s
    ensures s.Valid() && s.View() == Decide(old(s.View()), lookup)
  {
    match lookup {
      case JunkListed => s.file := s.file.(needsSave := true);
      case NotSavable => s.file := s.file.(needsSave := false);
      case LookupFailed => s.result := s.result.WithError("no lookup");
      case NoPrevious =>
      case UuidUnknown => s.result := s.result.WithError("no UUID").Fatal();
      case Previous(same) =>
        s.file := s.file.(uuidOk := true);
        if same {
          s.file := s.file.(needsSave := false);
        }
    }
  }

  /** The part of saveFile that copies to one or two places. */
  method CopyWhereNeeded(s: StorageSummary, a: FileAnswers)
    requires s.Valid() && s.file.needsSave
    modifies s
    ensures s.Valid() && s.View() == CopyBoth(old(s.View()), s.content, a)
  {
    if !s.file.storedAt || s.file.storageUrl == "" {
      s.CopyToLongTermStorage(if s.file.option == Standard then S3 else Region, a.storage);
    }
    assert s.View() == CopyFirst(old(s.View()), s.content, a);
    if s.file.option == Standard && (!s.file.replicatedAt || s.file.replicationUrl == "") {
      s.CopyToLongTermStorage(Glacier, a.replication);
    }
  }

  class APTStorer {
    var records: seq<Record>
    var result: Summary
    const contents: seq<string>

    function View(): Bag
      reads this
    {
      Bag(records, contents, result)
    }

    constructor (records: seq<Record>, contents: seq<string>)
      requires |records| == |contents|
      ensures View() == Bag(records, contents, FRESH) && View().Valid()
    {
      this.records, this.contents, this.result := records, contents, FRESH;
    }

    method SaveFile(i: nat, option: Option<StorageOption>, a: FileAnswers) returns (outcome: Summary)
      requires View().Valid() && i < |records|
      modifies this`records
      ensures var out := Save(old(records)[i], contents[i], option, a);
              records == old(records)[i := out.record] && outcome == out.result
    {
      var r := records[i];
      var file := if option.Some? then r.file.(option := option.value) else r.file;
      var s := new StorageSummary(file, r.temp, r.log, contents[i]);
      ApplyLookup(s, a.lookup);
      if a.lookup.LookupFailed? {
        return s.result;
      }
      if s.file.needsSave {
        CopyWhereNeeded(s, a);
      }
      outcome := s.result;
      if !a.saved {
        outcome := outcome.WithError("cannot save record");
      }
      records := records[i := Record(if a.saved then s.file else r.file, TempAfter(s.View(), a.cleaned), s.log)];
    }

    /** One batch. The files are saved one after the other; AnyOrder says that the order in
        which concurrent saves end makes no difference. */
    method SaveBatch(start: nat, end: nat, option: Option<StorageOption>, d: Delivery) returns (outcomes: seq<Summary>)
      requires Fits(View(), d) && start <= end <= |records|
      modifies this`records
      ensures records == SavedRange(old(View()), start, end, option, d)
      ensures outcomes == Results(old(View()), start, end, option, d)
    {
      outcomes := [];
      var i := start;
      ghost var saved := SaveEach(View(), option, d);
      EmptyRange(records, saved, start);
      while i < end
        invariant start <= i <= end
        invariant records == Replaced(old(records), saved, start, i) && outcomes == ResultsOf(saved, start, i)
      {
        RangeStep(old(records), saved, start, i);
        var outcome := SaveFile(i, option, d.files[i]);
        outcomes := outcomes + [outcome];
        i := i + 1;
      }
    }

    method CollectErrors(outcomes: seq<Summary>)
      requires result.Bounded()
      modifies this`result
      ensures result == Collected(old(result), outcomes)
    {
      var k := 0;
      while k < |outcomes|
        invariant k <= |outcomes| && result.Bounded()
        invariant Collected(result, outcomes[k..]) == Collected(old(result), outcomes)
      {
        SuffixStep(outcomes, k);
        result := result.WithErrors(outcomes[k].errors);
        if outcomes[k].errorIsFatal {
          result := result.Fatal();
          return;
        }
        k := k + 1;
      }
    }

    /** store: batch after batch, until one is shorter than the limit. */
    method SaveFiles(limit: int, option: Option<StorageOption>, d: Delivery)
      requires Fits(View(), d) && limit != 0
      modifies this
      ensures View() == Batches(old(View()), 0, limit, option, d)
    {
      var start, more := 0, true;
      while more
        invariant Fits(View(), d) && start <= |records| == |old(records)|
        invariant more ==> Batches(View(), start, limit, option, d) == Batches(old(View()), 0, limit, option, d)
        invariant !more ==> View() == Batches(old(View()), 0, limit, option, d)
        decreases more, |records| - start
      {
        if start in d.unreadable {
          result := result.WithError("unreadable").Fatal();
          return;
        }
        ghost var before := View();
        var end := BatchEnd(start, limit, |records|);
        var outcomes := SaveBatch(start, end, option, d);
        CollectErrors(outcomes);
        assert View() == AfterBatch(before, start, limit, option, d);
        more := end - start == limit;
        start := end;
      }
    }

    /** HandleMessage, store and record for one delivery. */
    method Process(cfg: Settings, d: Delivery) returns (verdict: Verdict)
      requires Fits(View(), d) && cfg.limit != 0
      modifies this
      ensures (verdict, View()) == Deliver(old(View()), cfg, d)
    {
      result := result.Cleared().Begun();
      match d.opening {
        case Missing => result := result.WithError("database missing").Fatal();
        case Unopened => result := result.WithError("cannot open");
        case Refused => result := result.WithError("another high resource bag is in progress");
        case Opened(option, manySmallFiles) =>
          SaveFiles(if manySmallFiles then cfg.limit * 20 else cfg.limit, option, d);
      }
      verdict := Judge(result, cfg);
      result := result.Done();
    }
  }
}
