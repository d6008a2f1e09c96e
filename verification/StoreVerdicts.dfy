/** Which files a delivery uploads and where to, when the attempts at an upload end, and the
    verdict on a delivery (workers/apt_storer.go), all in terms of what the storer finds and
    the answers it gets. */
module StoreVerdicts {
  import opened Collections
  import opened WorkSummaries
  import opened Options
  import opened Storing
  import opened Storer

  // ----- fifteen attempts -----

  /** The attempt gets as far as an upload of a file that needs no temporary file. */
  predicate GoesOut(a: Storing.Answer, to: Target) {
    (a.region || to != Region) && a.missing == [] && a.tarReader
  }

  function UploadOf(a: Storing.Answer, to: Target, content: string): Upload {
    Upload(to, content, a.error, ListedSize(a.listing, content), a.location)
  }

  function UploadsOf(answers: seq<Storing.Answer>, to: Target, content: string): seq<Upload> {
    if |answers| == 0 then [] else [UploadOf(answers[0], to, content)] + UploadsOf(answers[1..], to, content)
  }

  predicate Takes(a: Storing.Answer, to: Target, content: string, size: nat) {
    Accepted(UploadOf(a, to, content), size)
  }

  /** A bucket takes an upload that is reported without an error and listed with the size of
      the file, be that the size of what was sent or not. */
  lemma TakesIff(a: Storing.Answer, to: Target, content: string, size: nat)
    ensures Takes(a, to, content, size) <==>
            !a.error && (a.listing == Lists(size) || (a.listing.ListsWhatWasSent? && |content| == size))
  {
  }

  lemma OneRejection(s: Saving, content: string, to: Target, n: nat, a: Storing.Answer)
    requires !Large(s.file) && GoesOut(a, to) && !Takes(a, to, content, s.file.size)
    ensures var r := DoUpload(s, content, to, n, a);
            && r.file == s.file && r.temp == s.temp && r.log == s.log + [UploadOf(a, to, content)]
            && (n < 15 ==> r.result == s.result) && (n == 15 ==> r.result.HasErrors())
  {
  }

  lemma OneAcceptance(s: Saving, content: string, to: Target, n: nat, a: Storing.Answer)
    requires !Large(s.file) && GoesOut(a, to) && Takes(a, to, content, s.file.size)
    ensures DoUpload(s, content, to, n, a) ==
            s.(log := s.log + [UploadOf(a, to, content)], file := Mark(s.file, to, a.location))
  {
  }

  lemma UploadsStep(answers: seq<Storing.Answer>, to: Target, content: string, n: nat, k: nat)
    requires n < k <= |answers|
    ensures UploadsOf(answers[n..k], to, content) ==
            [UploadOf(answers[n], to, content)] + UploadsOf(answers[n + 1..k], to, content)
  {
    assert answers[n..k][1..] == answers[n + 1..k];
  }

  lemma AcceptedNow(s: Saving, content: string, to: Target, n: nat, answers: Answers)
    requires 1 <= n <= 15 && !Large(s.file)
    requires GoesOut(answers[n - 1], to) && Takes(answers[n - 1], to, content, s.file.size)
    ensures CopyFrom(s, content, to, n, answers) ==
            s.(log := s.log + UploadsOf(answers[n - 1..n], to, content),
               file := Mark(s.file, to, answers[n - 1].location))
  {
    OneAcceptance(s, content, to, n, answers[n - 1]);
    UploadsStep(answers, to, content, n - 1, n);
    Nothing([UploadOf(answers[n - 1], to, content)]);
  }

  lemma {:induction false} AttemptsFrom(s: Saving, content: string, to: Target, n: nat, answers: Answers, k: nat)
    requires 1 <= n <= 15 && !Large(s.file) && !IsMarked(s.file, to) && n - 1 <= k <= 15
    requires forall i :: n - 1 <= i < 15 ==> GoesOut(answers[i], to)
    requires forall i :: n - 1 <= i < k ==> !Takes(answers[i], to, content, s.file.size)
    requires k < 15 ==> Takes(answers[k], to, content, s.file.size)
    ensures var r := CopyFrom(s, content, to, n, answers);
            && (k < 15 ==> r == s.(log := s.log + UploadsOf(answers[n - 1..k + 1], to, content),
                                   file := Mark(s.file, to, answers[k].location)))
            && (k == 15 ==> r.file == s.file && r.result.HasErrors() &&
                            r.log == s.log + UploadsOf(answers[n - 1..15], to, content))
    decreases 15 - n
  {
    var r := DoUpload(s, content, to, n, answers[n - 1]);
    var sent := [UploadOf(answers[n - 1], to, content)];
    if k == n - 1 {
      AcceptedNow(s, content, to, n, answers);
    } else {
      OneRejection(s, content, to, n, answers[n - 1]);
      var end := if k < 15 then k + 1 else 15;
      UploadsStep(answers, to, content, n - 1, end);
      Assoc(s.log, sent, UploadsOf(answers[n..end], to, content));
      if n < 15 {
        AttemptsFrom(r, content, to, n + 1, answers, k);
      } else {
        assert CopyFrom(r, content, to, 16, answers) == r;
        Nothing(sent);
      }
    }
  }

  /** A file that needs no temporary file is uploaded until the first answer that is accepted,
      at most fifteen times: it is marked with the place of that answer, or else there is an
      error and nothing is marked. */
  lemma FirstAcceptanceCounts(s: Saving, content: string, to: Target, answers: Answers, k: nat)
    requires s.file.uuidOk && !Large(s.file) && !IsMarked(s.file, to) && k <= 15
    requires forall i :: 0 <= i < 15 ==> GoesOut(answers[i], to)
    requires forall i :: 0 <= i < k ==> !Takes(answers[i], to, content, s.file.size)
    requires k < 15 ==> Takes(answers[k], to, content, s.file.size)
    ensures var r := Copy(s, content, to, answers);
            && (k < 15 ==> r == s.(log := s.log + UploadsOf(answers[..k + 1], to, content),
                                   file := Mark(s.file, to, answers[k].location)))
            && (k == 15 ==> r.file == s.file && r.result.HasErrors() &&
                            r.log == s.log + UploadsOf(answers[..15], to, content))
  {
    AttemptsFrom(s, content, to, 1, answers, k);
  }

  // ----- one attempt -----

  /** The temporary file of a large file can be used: one that lies there has the size of the
      file, or a new one is extracted in full. */
  predicate TempUsable(s: Saving, content: string, a: Storing.Answer) {
    && a.opens
    && if s.temp.Some? && s.temp.value != "" then |s.temp.value| == s.file.size
       else a.copying.Completes? && |content| == s.file.size
  }

  /** An attempt makes one upload exactly if uploader, settings and tar reader are there and, for
      a large file, the temporary file can be used; otherwise it makes none and that is an
      error. */
  lemma AttemptUploadsIff(s: Saving, content: string, to: Target, n: nat, a: Storing.Answer)
    ensures var r, goes := DoUpload(s, content, to, n, a),
                           GoesOut(a, to) && (!Large(s.file) || TempUsable(s, content, a));
            && |r.log| == |s.log| + (if goes then 1 else 0) && s.log <= r.log
            && (!goes ==> r.file == s.file && r.log == s.log && r.result.HasErrors())
  {
    var e := Extract(s.temp, content, s.file.size, a);
    assert e.ok <==> TempUsable(s, content, a);
  }

  // ----- large files -----

  /** What an extraction leaves behind is a stump exactly if it is neither empty nor of the
      size of the file. */
  lemma StumpLeftIff(temp: Option<string>, content: string, size: nat, a: Storing.Answer)
    requires temp == None || temp == Some("")
    ensures var left := match a.copying
                        case CannotCreate => 0
                        case StopsAfter(k) => if k < |content| then k else |content|
                        case Completes => |content|;
            Stump(Extract(temp, content, size, a).temp, size) <==> left != 0 && left != size
  {
  }

  lemma InterruptedUpload(s: Saving, content: string, to: Target, a: Storing.Answer)
    requires Large(s.file) && (s.temp == None || s.temp == Some("")) && GoesOut(a, to) && |content| == s.file.size
    requires a.copying.StopsAfter? && 0 < a.copying.bytes < |content|
    ensures var r := DoUpload(s, content, to, 1, a);
            r.file == s.file && r.log == s.log && Stump(r.temp, s.file.size) && r.result.HasErrors()
  {
    StumpLeftIff(s.temp, content, s.file.size, a);
  }

  /** A first extraction of a large file that stops half-way leaves a stump, and with it the
      file is not stored, however well the fourteen further attempts would go. */
  lemma InterruptedExtractionBlocks(s: Saving, content: string, to: Target, answers: Answers)
    requires s.file.uuidOk && Large(s.file) && !IsMarked(s.file, to) && (s.temp == None || s.temp == Some(""))
    requires GoesOut(answers[0], to) && |content| == s.file.size
    requires answers[0].copying.StopsAfter? && 0 < answers[0].copying.bytes < |content|
    ensures var r := Copy(s, content, to, answers);
            r.file == s.file && r.log == s.log && Stump(r.temp, s.file.size) && r.result.HasErrors()
  {
    InterruptedUpload(s, content, to, answers[0]);
    var r := DoUpload(s, content, to, 1, answers[0]);
    StumpBlocksFrom(r, content, to, 2, answers);
    CopyDecides(s, content, to, answers);
  }

  /** A file is large from one byte above 100 MB on: up to there one flawless upload stores it,
      and beyond it takes two. */
  lemma LargeFromHere(s: Saving, content: string, to: Target, answers: Answers)
    requires s.file.uuidOk && AllFlawless(answers) && |content| == s.file.size && s.temp == None
    requires !IsMarked(s.file, to)
    ensures |Copy(s, content, to, answers).log| == |s.log| + if s.file.size <= 104857600 then 1 else 2
  {
    if s.file.size <= 104857600 {
      FlawlessCopy(s, content, to, answers);
    } else {
      FlawlessLargeCopy(s, content, to, answers);
    }
  }

  // ----- fatal errors of a copy -----

  /** An answer at which the copy fails for good: no region, or a setting is missing. */
  predicate Forbids(a: Storing.Answer, to: Target) {
    (!a.region && to == Region) || a.missing != []
  }

  lemma UploadFatalIff(s: Saving, content: string, to: Target, n: nat, a: Storing.Answer)
    ensures DoUpload(s, content, to, n, a).result.errorIsFatal <==> s.result.errorIsFatal || Forbids(a, to)
  {
    if !Forbids(a, to) {
      var e := Extract(s.temp, content, s.file.size, a);
      SameFatal(s, content, to, n, a);
      SameFatal(s.(temp := e.temp), e.left, to, n, a);
    }
  }

  lemma SameFatal(s: Saving, sent: string, to: Target, n: nat, a: Storing.Answer)
    ensures Send(s, sent, to, n, a).result.errorIsFatal == s.result.errorIsFatal
  {
  }

  lemma {:induction false} CopyFromFatalIff(s: Saving, content: string, to: Target, n: nat, answers: Answers)
    requires 1 <= n <= MAX_UPLOAD_ATTEMPTS + 1 && forall i :: n - 1 <= i < |answers| ==> !Forbids(answers[i], to)
    ensures CopyFrom(s, content, to, n, answers).result.errorIsFatal == s.result.errorIsFatal
    decreases MAX_UPLOAD_ATTEMPTS + 1 - n
  {
    if n <= MAX_UPLOAD_ATTEMPTS {
      UploadFatalIff(s, content, to, n, answers[n - 1]);
      CopyFromFatalIff(DoUpload(s, content, to, n, answers[n - 1]), content, to, n + 1, answers);
    }
  }

  /** A bad UUID is a fatal error of a copy, and so is a first answer that forbids it; and
      there is no other if no answer does. */
  lemma CopyIsFatal(s: Saving, content: string, to: Target, answers: Answers)
    requires !s.result.errorIsFatal
    ensures !s.file.uuidOk || Forbids(answers[0], to) ==> Copy(s, content, to, answers).result.errorIsFatal
    ensures s.file.uuidOk && (forall i :: 0 <= i < |answers| ==> !Forbids(answers[i], to)) ==>
              !Copy(s, content, to, answers).result.errorIsFatal
  {
    if s.file.uuidOk {
      UploadFatalIff(s, content, to, 1, answers[0]);
      var r := DoUpload(s, content, to, 1, answers[0]);
      if Forbids(answers[0], to) {
        CopyFromKeepsFatal(r, content, to, 2, answers);
      }
      if forall i :: 0 <= i < |answers| ==> !Forbids(answers[i], to) {
        CopyFromFatalIff(s, content, to, 1, answers);
      }
    }
  }

  // ----- where the uploads go -----

  predicate NewUploadsTo(before: seq<Upload>, after: seq<Upload>, to: set<Target>) {
    before <= after && forall j :: |before| <= j < |after| ==> after[j].to in to
  }

  lemma SendGoesTo(s: Saving, sent: string, to: Target, n: nat, a: Storing.Answer)
    ensures var r := Send(s, sent, to, n, a);
            NewUploadsTo(s.log, r.log, {to}) && r.file.option == s.file.option && r.file.needsSave == s.file.needsSave
  {
  }

  lemma UploadGoesTo(s: Saving, content: string, to: Target, n: nat, a: Storing.Answer)
    ensures var r := DoUpload(s, content, to, n, a);
            NewUploadsTo(s.log, r.log, {to}) && r.file.option == s.file.option && r.file.needsSave == s.file.needsSave
  {
    var e := Extract(s.temp, content, s.file.size, a);
    SendGoesTo(s, content, to, n, a);
    SendGoesTo(s.(temp := e.temp), e.left, to, n, a);
  }

  lemma {:induction false} CopyFromGoesTo(s: Saving, content: string, to: Target, n: nat, answers: Answers)
    requires 1 <= n <= MAX_UPLOAD_ATTEMPTS + 1
    ensures var r := CopyFrom(s, content, to, n, answers);
            NewUploadsTo(s.log, r.log, {to}) && r.file.option == s.file.option && r.file.needsSave == s.file.needsSave
    decreases MAX_UPLOAD_ATTEMPTS + 1 - n
  {
    if n <= MAX_UPLOAD_ATTEMPTS {
      UploadGoesTo(s, content, to, n, answers[n - 1]);
      var r := DoUpload(s, content, to, n, answers[n - 1]);
      if !IsMarked(r.file, to) {
        CopyFromGoesTo(r, content, to, n + 1, answers);
      }
    }
  }

  lemma CopyGoesTo(s: Saving, content: string, to: Target, answers: Answers)
    ensures var r := Copy(s, content, to, answers);
            NewUploadsTo(s.log, r.log, {to}) && r.file.option == s.file.option && r.file.needsSave == s.file.needsSave
  {
    if s.file.uuidOk {
      CopyFromGoesTo(s, content, to, 1, answers);
    }
  }

  /** The option a file is stored with: that of the delivery, if it forces one. */
  function OptionFor(r: Record, option: Option<StorageOption>): StorageOption {
    if option.Some? then option.value else r.file.option
  }

  function Places(option: StorageOption): set<Target> {
    if option == Standard then {S3, Glacier} else {Region}
  }

  lemma CopyFirstGoesTo(s: Saving, content: string, a: FileAnswers)
    ensures var r := CopyFirst(s, content, a);
            && NewUploadsTo(s.log, r.log, {if s.file.option == Standard then S3 else Region})
            && r.file.option == s.file.option && r.file.needsSave == s.file.needsSave
  {
    CopyGoesTo(s, content, if s.file.option == Standard then S3 else Region, a.storage);
  }

  lemma CopySecondGoesTo(s: Saving, content: string, a: FileAnswers)
    ensures var r := CopySecond(s, content, a);
            && NewUploadsTo(s.log, r.log, if s.file.option == Standard then {Glacier} else {})
            && r.file.option == s.file.option && r.file.needsSave == s.file.needsSave
  {
    CopyGoesTo(s, content, Glacier, a.replication);
  }

  lemma CopyBothGoesTo(s: Saving, content: string, a: FileAnswers)
    ensures var r := CopyBoth(s, content, a);
            && NewUploadsTo(s.log, r.log, Places(s.file.option))
            && r.file.option == s.file.option && r.file.needsSave == s.file.needsSave
  {
    if s.file.needsSave {
      CopyFirstGoesTo(s, content, a);
      CopySecondGoesTo(CopyFirst(s, content, a), content, a);
    }
  }

  /** A Standard file goes to S3 and Glacier only, any other only to the region of its option. */
  lemma SaveGoesTo(r: Record, content: string, option: Option<StorageOption>, a: FileAnswers)
    ensures NewUploadsTo(r.log, Save(r, content, option, a).record.log, Places(OptionFor(r, option)))
  {
    DecidedFor(r, option, a.lookup);
    CopyBothGoesTo(Decide(Start(r, option), a.lookup), content, a);
    SaveLog(r, content, option, a);
  }

  lemma DecidedFor(r: Record, option: Option<StorageOption>, lookup: Lookup)
    ensures var s := Decide(Start(r, option), lookup); s.log == r.log && s.file.option == OptionFor(r, option)
  {
  }

  lemma SaveLog(r: Record, content: string, option: Option<StorageOption>, a: FileAnswers)
    ensures Save(r, content, option, a).record.log ==
            if a.lookup.LookupFailed? then r.log else CopyBoth(Decide(Start(r, option), a.lookup), content, a).log
  {
  }

  // ----- which files are uploaded -----

  /** The file is to be saved: a listed junk file, or one that was marked to be saved and is
      new or has changed. */
  predicate ToSave(r: Record, lookup: Lookup) {
    lookup.JunkListed? || (r.file.needsSave && (lookup.NoPrevious? || lookup == Previous(false)))
  }

  predicate NotToSave(r: Record, lookup: Lookup) {
    lookup.NotSavable? || lookup == Previous(true) || (!r.file.needsSave && (lookup.NoPrevious? || lookup.Previous?))
  }

  predicate HasAccepted(log: seq<Upload>, size: nat, replica: bool) {
    exists i :: 0 <= i < |log| && (log[i].to == Glacier) == replica && Accepted(log[i], size)
  }

  /** A file that is not to be saved is not uploaded, and its record says so. */
  lemma NotToSaveIsNotUploaded(r: Record, content: string, option: Option<StorageOption>, a: FileAnswers)
    requires NotToSave(r, a.lookup)
    ensures var out := Save(r, content, option, a);
            && out.record.log == r.log && out.record.temp == r.temp && out.result.HasErrors() == !a.saved
            && (a.saved ==> !out.record.file.needsSave)
  {
  }

  /** A file that is to be saved and is saved without an error has been uploaded, and
      replicated if its option is Standard. */
  lemma ToSaveIsUploaded(r: Record, content: string, option: Option<StorageOption>, a: FileAnswers)
    requires RecordSound(r, content) && ToSave(r, a.lookup) && !Save(r, content, option, a).result.HasErrors()
    ensures var out := Save(r, content, option, a).record;
            && HasAccepted(out.log, r.file.size, false)
            && (OptionFor(r, option) == Standard ==> HasAccepted(out.log, r.file.size, true))
  {
    var out := Save(r, content, option, a).record;
    SaveKeeps(r, content, option, a);
    CopyBothGoesTo(Decide(Start(r, option), a.lookup), content, a);
    assert out.file.needsSave && out.file.option == OptionFor(r, option);
    assert StorageChecked(out.file, out.log) && ReplicationChecked(out.file, out.log);
  }

  lemma FitThen(b: Bag, ds: seq<Delivery>, d: Delivery)
    requires AllFit(b, ds) && Fits(b, d)
    ensures AllFit(b, ds + [d])
  {
  }

  /** A run goes on with one more delivery. */
  lemma {:induction false} RunThen(v: Verdict, b: Bag, cfg: Settings, ds: seq<Delivery>, d: Delivery)
    requires AllFit(b, ds) && Fits(b, d) && cfg.limit != 0
    ensures AllFit(b, ds + [d])
    ensures Run(v, b, cfg, ds + [d]) == Deliver(Run(v, b, cfg, ds).1, cfg, d)
    decreases |ds|
  {
    FitThen(b, ds, d);
    if |ds| == 0 {
      assert (ds + [d])[0] == d && (ds + [d])[1..] == [];
      var r := Deliver(b, cfg, d);
      assert Run(r.0, r.1, cfg, []) == r;
    } else {
      var r := Deliver(b, cfg, ds[0]);
      RunThen(r.0, r.1, cfg, ds[1..], d);
      assert (ds + [d])[0] == ds[0] && (ds + [d])[1..] == ds[1..] + [d];
    }
  }

  lemma PushedIsUploaded(b: Bag, cfg: Settings, d: Delivery, i: nat)
    requires Fits(b, d) && cfg.limit > 0 && BagSound(b) && Deliver(b, cfg, d).0 == Pushed && i < |b.records|
    ensures d.opening.Opened? && (ToSave(b.records[i], d.files[i].lookup) || NotToSave(b.records[i], d.files[i].lookup))
    ensures var r, log := b.records[i], Deliver(b, cfg, d).1.records[i].log;
            if ToSave(r, d.files[i].lookup) then
              && HasAccepted(log, r.file.size, false)
              && (OptionFor(r, d.opening.option) == Standard ==> HasAccepted(log, r.file.size, true))
            else log == r.log
  {
    var s, option := Begun(b), d.opening.option;
    CleanBatches(s, 0, Limit(cfg, d), option, d, i);
    LookupErrors(s.records[i], s.contents[i], option, d.files[i]);
    if ToSave(b.records[i], d.files[i].lookup) {
      ToSaveIsUploaded(s.records[i], s.contents[i], option, d.files[i]);
    } else {
      NotToSaveIsNotUploaded(s.records[i], s.contents[i], option, d.files[i]);
    }
  }

  /** An item goes on to the recorder only when every file that its last lookup says is to be
      saved has an accepted upload, and a replica if it is stored as Standard; and its last
      delivery uploads no other file. */
  lemma PushedFilesAreUploaded(b: Bag, cfg: Settings, ds: seq<Delivery>, d: Delivery, i: nat)
    requires New(b) && AllFit(b, ds) && Fits(b, d) && cfg.limit > 0 && i < |b.records|
    requires Deliver(Run(Requeued, b, cfg, ds).1, cfg, d).0 == Pushed
    ensures var before, lookup := Run(Requeued, b, cfg, ds).1.records[i], d.files[i].lookup;
            var log := Deliver(Run(Requeued, b, cfg, ds).1, cfg, d).1.records[i].log;
            && d.opening.Opened? && (ToSave(before, lookup) || NotToSave(before, lookup))
            && if ToSave(before, lookup) then
                 && HasAccepted(log, before.file.size, false)
                 && (OptionFor(before, d.opening.option) == Standard ==> HasAccepted(log, before.file.size, true))
               else log == before.log
  {
    RunKeeps(Requeued, b, cfg, ds);
    PushedIsUploaded(Run(Requeued, b, cfg, ds).1, cfg, d, i);
  }

  lemma DeliveryLeavesAlone(b: Bag, cfg: Settings, d: Delivery, i: nat)
    requires Fits(b, d) && cfg.limit != 0 && i < |b.records|
    requires d.files[i].lookup.NotSavable? || d.files[i].lookup == Previous(true)
    ensures Deliver(b, cfg, d).1.records[i].log == b.records[i].log
  {
    if d.opening.Opened? {
      BatchesTouch(Begun(b), 0, Limit(cfg, d), d.opening.option, d);
      NotToSaveIsNotUploaded(b.records[i], b.contents[i], d.opening.option, d.files[i]);
    }
  }

  /** A file that never has a savable name, or is always found unchanged, is uploaded by no
      delivery of any run. */
  lemma {:induction false} UnchangedIsNeverUploaded(v: Verdict, b: Bag, cfg: Settings, ds: seq<Delivery>, i: nat)
    requires AllFit(b, ds) && cfg.limit != 0 && i < |b.records|
    requires forall k :: 0 <= k < |ds| ==> ds[k].files[i].lookup.NotSavable? || ds[k].files[i].lookup == Previous(true)
    ensures Run(v, b, cfg, ds).1.records[i].log == b.records[i].log
    decreases |ds|
  {
    if |ds| > 0 {
      DeliveryLeavesAlone(b, cfg, ds[0], i);
      var (next, after) := Deliver(b, cfg, ds[0]);
      UnchangedIsNeverUploaded(next, after, cfg, ds[1..], i);
    }
  }

  /** The upload that a flawless save of a small file makes to its first place, and that to its
      second: none to a place that is on record. */
  function FirstUpload(file: File, option: StorageOption, content: string, a: FileAnswers): seq<Upload> {
    if file.storedAt && file.storageUrl != "" then []
    else [CleanUpload(if option == Standard then S3 else Region, content, a.storage[0].location)]
  }

  function SecondUpload(file: File, option: StorageOption, content: string, a: FileAnswers): seq<Upload> {
    if option != Standard || (file.replicatedAt && file.replicationUrl != "") then []
    else [CleanUpload(Glacier, content, a.replication[0].location)]
  }

  lemma FlawlessFirst(s: Saving, content: string, a: FileAnswers)
    requires s.file.uuidOk && !Large(s.file) && |content| == s.file.size && AllFlawless(a.storage)
    ensures var to := if s.file.option == Standard then S3 else Region;
            CopyFirst(s, content, a) ==
            if s.file.storedAt && s.file.storageUrl != "" then s
            else s.(log := s.log + [CleanUpload(to, content, a.storage[0].location)],
                    file := Mark(s.file, to, a.storage[0].location))
  {
    FlawlessCopy(s, content, if s.file.option == Standard then S3 else Region, a.storage);
  }

  lemma FlawlessSecond(s: Saving, content: string, a: FileAnswers)
    requires s.file.uuidOk && !Large(s.file) && |content| == s.file.size && AllFlawless(a.replication)
    ensures CopySecond(s, content, a) ==
            if s.file.option != Standard || (s.file.replicatedAt && s.file.replicationUrl != "") then s
            else s.(log := s.log + [CleanUpload(Glacier, content, a.replication[0].location)],
                    file := Mark(s.file, Glacier, a.replication[0].location))
  {
    FlawlessCopy(s, content, Glacier, a.replication);
  }

  lemma FlawlessBoth(s: Saving, content: string, a: FileAnswers)
    requires s.file.needsSave && s.file.uuidOk && !Large(s.file) && |content| == s.file.size
    requires AllFlawless(a.storage) && AllFlawless(a.replication)
    ensures var c := CopyBoth(s, content, a);
            && c.log == s.log + FirstUpload(s.file, s.file.option, content, a)
                        + SecondUpload(s.file, s.file.option, content, a)
            && c.result == s.result
  {
    FlawlessFirst(s, content, a);
    FlawlessSecond(CopyFirst(s, content, a), content, a);
    Nothing(s.log);
    Nothing(s.log + FirstUpload(s.file, s.file.option, content, a));
  }

  lemma DecidedToSave(r: Record, option: Option<StorageOption>, lookup: Lookup)
    requires ToSave(r, lookup) && (r.file.uuidOk || lookup.Previous?)
    ensures var s := Decide(Start(r, option), lookup);
            && s.file == r.file.(needsSave := true, uuidOk := true, option := OptionFor(r, option))
            && s.log == r.log && s.result == FRESH
  {
  }

  /** Nothing going wrong, a small file that is to be saved, with a UUID of its own or that of
      its earlier version, is uploaded to exactly the places that are not on record, a mark
      without a place being none. */
  lemma FlawlessSave(r: Record, content: string, option: Option<StorageOption>, a: FileAnswers)
    requires ToSave(r, a.lookup) && (r.file.uuidOk || a.lookup.Previous?) && a.saved
    requires !Large(r.file) && |content| == r.file.size && AllFlawless(a.storage) && AllFlawless(a.replication)
    ensures var out := Save(r, content, option, a);
            && out.record.log == r.log + FirstUpload(r.file, OptionFor(r, option), content, a)
                                 + SecondUpload(r.file, OptionFor(r, option), content, a)
            && !out.result.HasErrors()
  {
    var s := Decide(Start(r, option), a.lookup);
    DecidedToSave(r, option, a.lookup);
    FlawlessBoth(s, content, a);
    SaveLog(r, content, option, a);
  }

  /** A new file with a bad UUID is a fatal error. */
  lemma BadUuidIsFatal(r: Record, content: string, option: Option<StorageOption>, a: FileAnswers)
    requires r.file.needsSave && !r.file.uuidOk && !r.file.storedAt && a.lookup.NoPrevious?
    ensures Save(r, content, option, a).result.errorIsFatal
  {
    var s := Decide(Start(r, option), a.lookup);
    CopyIsFatal(s, content, if s.file.option == Standard then S3 else Region, a.storage);
    CopyFromKeepsFatal(CopyFirst(s, content, a), content, Glacier, 1, a.replication);
  }

  /** The file is marked as stored, and as replicated, with the places it went to. */
  predicate FullyStored(file: File) {
    file.storedAt && file.storageUrl != "" && file.replicatedAt && file.replicationUrl != ""
  }

  lemma StoredIsLeftAlone(r: Record, content: string, option: Option<StorageOption>, a: FileAnswers)
    requires FullyStored(r.file)
    ensures var out := Save(r, content, option, a).record; out.log == r.log && FullyStored(out.file)
  {
    var s := Decide(Start(r, option), a.lookup);
    assert FullyStored(s.file);
    assert CopyBoth(s, content, a) == s;
  }

  /** A file that is fully stored is uploaded by no later delivery. */
  lemma {:induction false} StoredIsNotUploadedAgain(v: Verdict, b: Bag, cfg: Settings, ds: seq<Delivery>, i: nat)
    requires AllFit(b, ds) && cfg.limit != 0 && i < |b.records| && FullyStored(b.records[i].file)
    ensures Run(v, b, cfg, ds).1.records[i].log == b.records[i].log
    decreases |ds|
  {
    if |ds| > 0 {
      var d := ds[0];
      if d.opening.Opened? {
        BatchesTouch(Begun(b), 0, Limit(cfg, d), d.opening.option, d);
        StoredIsLeftAlone(b.records[i], b.contents[i], d.opening.option, d.files[i]);
      }
      var (next, after) := Deliver(b, cfg, d);
      StoredIsNotUploadedAgain(next, after, cfg, ds[1..], i);
    }
  }

  /** If the database cannot be written, the record of the file stays as it was, and that is
      an error, although its uploads have been made. */
  lemma UnsavedRecordStays(r: Record, content: string, option: Option<StorageOption>, a: FileAnswers)
    requires !a.saved || a.lookup.LookupFailed?
    ensures var out := Save(r, content, option, a); out.record.file == r.file && out.result.HasErrors()
  {
  }

  // ----- errors of a file -----

  lemma SendKeepsFatal(s: Saving, sent: string, to: Target, n: nat, a: Storing.Answer)
    requires s.result.errorIsFatal
    ensures Send(s, sent, to, n, a).result.errorIsFatal
  {
  }

  lemma UploadKeepsFatal(s: Saving, content: string, to: Target, n: nat, a: Storing.Answer)
    requires s.result.errorIsFatal
    ensures DoUpload(s, content, to, n, a).result.errorIsFatal
  {
    var e := Extract(s.temp, content, s.file.size, a);
    SendKeepsFatal(s, content, to, n, a);
    SendKeepsFatal(s.(temp := e.temp), e.left, to, n, a);
  }

  lemma {:induction false} CopyFromKeepsFatal(s: Saving, content: string, to: Target, n: nat, answers: Answers)
    requires 1 <= n <= MAX_UPLOAD_ATTEMPTS + 1 && s.result.errorIsFatal
    ensures CopyFrom(s, content, to, n, answers).result.errorIsFatal
    decreases MAX_UPLOAD_ATTEMPTS + 1 - n
  {
    if n <= MAX_UPLOAD_ATTEMPTS {
      UploadKeepsFatal(s, content, to, n, answers[n - 1]);
      CopyFromKeepsFatal(DoUpload(s, content, to, n, answers[n - 1]), content, to, n + 1, answers);
    }
  }

  lemma CopyKeepsFatal(s: Saving, content: string, to: Target, answers: Answers)
    requires s.result.errorIsFatal
    ensures Copy(s, content, to, answers).result.errorIsFatal
  {
    CopyFromKeepsFatal(s, content, to, 1, answers);
  }

  lemma CopyBothKeepsFatal(s: Saving, content: string, a: FileAnswers)
    requires s.result.errorIsFatal
    ensures CopyBoth(s, content, a).result.errorIsFatal
  {
    if s.file.needsSave {
      CopyKeepsFatal(s, content, if s.file.option == Standard then S3 else Region, a.storage);
      CopyKeepsFatal(CopyFirst(s, content, a), content, Glacier, a.replication);
    }
  }

  /** A failed lookup is an error, and an unknown UUID a fatal one. */
  lemma LookupErrors(r: Record, content: string, option: Option<StorageOption>, a: FileAnswers)
    ensures a.lookup.LookupFailed? ==> Save(r, content, option, a).result.HasErrors()
    ensures a.lookup.UuidUnknown? ==>
              Save(r, content, option, a).result.errorIsFatal && Save(r, content, option, a).result.HasErrors()
  {
    if a.lookup.UuidUnknown? {
      CopyBothKeepsFatal(Decide(Start(r, option), a.lookup), content, a);
      FatalHasErrors(r, content, option, a);
    }
  }

  // ----- the verdict -----

  lemma {:induction false} CollectedIff(s: Summary, results: seq<Summary>)
    requires s.Bounded() && forall k :: 0 <= k < |results| ==> (results[k].errorIsFatal ==> results[k].HasErrors())
    ensures Collected(s, results).HasErrors() <==>
            s.HasErrors() || exists k :: 0 <= k < |results| && results[k].HasErrors()
    ensures Collected(s, results).errorIsFatal <==>
            s.errorIsFatal || exists k :: 0 <= k < |results| && results[k].errorIsFatal
    decreases |results|
  {
    if |results| > 0 {
      CollectedIff(s.WithErrors(results[0].errors), results[1..]);
      assert forall k :: 0 < k < |results| ==> results[k] == results[1..][k - 1];
    }
  }

  /** Some file from this place on is saved with an error, or with a fatal one. */
  predicate Errs(saved: seq<Saved>, from: nat) {
    exists i :: from <= i < |saved| && saved[i].result.HasErrors()
  }

  predicate Fails(saved: seq<Saved>, from: nat) {
    exists i :: from <= i < |saved| && saved[i].result.errorIsFatal
  }

  /** Where the batch of this number starts. */
  function StartOf(q: nat, limit: nat): nat {
    if q == 0 then 0 else StartOf(q - 1, limit) + limit
  }

  /** A batch from this one on cannot be read. A last, empty one is read if the files fill
      the batches before it. */
  predicate Unreadable(d: Delivery, limit: nat, from: nat, count: nat) {
    exists q :: from <= q <= count && StartOf(q, limit) <= count && StartOf(q, limit) in d.unreadable
  }

  lemma {:induction false} LaterBatch(q: nat, r: nat, limit: nat)
    requires q < r
    ensures StartOf(q, limit) + limit <= StartOf(r, limit)
    decreases r
  {
    if q + 1 < r {
      LaterBatch(q, r - 1, limit);
    }
  }

  lemma {:induction false} BatchNumber(q: nat, limit: nat)
    requires limit > 0
    ensures q <= StartOf(q, limit)
  {
    if q > 0 {
      BatchNumber(q - 1, limit);
    }
  }

  lemma NoMoreBatches(d: Delivery, limit: nat, q: nat, count: nat)
    requires limit > 0 && StartOf(q, limit) + limit > count && StartOf(q, limit) !in d.unreadable
    ensures !Unreadable(d, limit, q, count)
  {
    forall r | q <= r <= count ensures !(StartOf(r, limit) <= count && StartOf(r, limit) in d.unreadable) {
      if q < r {
        LaterBatch(q, r, limit);
      }
    }
  }

  lemma NextBatch(d: Delivery, limit: nat, q: nat, count: nat)
    requires limit > 0 && StartOf(q, limit) !in d.unreadable
    ensures Unreadable(d, limit, q, count) == Unreadable(d, limit, q + 1, count)
  {
    if Unreadable(d, limit, q, count) {
      var r :| q <= r <= count && StartOf(r, limit) <= count && StartOf(r, limit) in d.unreadable;
      assert r != q;
    }
  }

  /** The collected errors of the batches from this place on, given how each file is saved. */
  function CollectedFrom(s: Summary, saved: seq<Saved>, start: nat, limit: nat, unreadable: set<nat>): (r: Summary)
    requires s.Bounded() && start <= |saved| && limit > 0
    decreases |saved| - start
  {
    if start in unreadable then s.WithError("unreadable").Fatal()
    else
      var end := BatchEnd(start, limit, |saved|);
      var next := Collected(s, ResultsOf(saved, start, end));
      if HasMore(start, limit, |saved|) then CollectedFrom(next, saved, end, limit, unreadable) else next
  }

  predicate SavedFrom(b: Bag, saved: seq<Saved>, start: nat, option: Option<StorageOption>, d: Delivery)
    requires Fits(b, d)
  {
    |saved| == |b.records| && forall i :: start <= i < |saved| ==> saved[i] == SaveAt(b, i, option, d)
  }

  lemma ResultsAre(b: Bag, saved: seq<Saved>, lo: nat, hi: nat, option: Option<StorageOption>, d: Delivery)
    requires Fits(b, d) && SavedFrom(b, saved, lo, option, d) && lo <= hi <= |b.records|
    ensures Results(b, lo, hi, option, d) == ResultsOf(saved, lo, hi)
  {
    var rs := Results(b, lo, hi, option, d);
    forall k | 0 <= k < |rs| ensures rs[k] == ResultsOf(saved, lo, hi)[k] {
      assert saved[lo + k] == SaveAt(b, lo + k, option, d);
    }
  }

  lemma SavedLater(b: Bag, saved: seq<Saved>, start: nat, limit: nat, option: Option<StorageOption>, d: Delivery)
    requires Fits(b, d) && start <= |b.records| && SavedFrom(b, saved, start, option, d)
    ensures SavedFrom(AfterBatch(b, start, limit, option, d), saved, BatchEnd(start, limit, |b.records|), option, d)
  {
    var next, end := AfterBatch(b, start, limit, option, d), BatchEnd(start, limit, |b.records|);
    assert forall i :: end <= i < |saved| ==> next.records[i] == b.records[i];
  }

  lemma {:induction false} BatchesCollect(b: Bag, saved: seq<Saved>, start: nat, limit: nat,
                                          option: Option<StorageOption>, d: Delivery)
    requires Fits(b, d) && start <= |b.records| && limit > 0 && SavedFrom(b, saved, start, option, d)
    ensures Batches(b, start, limit, option, d).result == CollectedFrom(b.result, saved, start, limit, d.unreadable)
    decreases |b.records| - start
  {
    if start !in d.unreadable {
      var next, end := AfterBatch(b, start, limit, option, d), BatchEnd(start, limit, |b.records|);
      ResultsAre(b, saved, start, end, option, d);
      SavedLater(b, saved, start, limit, option, d);
      if HasMore(start, limit, |b.records|) {
        BatchesCollect(next, saved, end, limit, option, d);
      }
    }
  }

  predicate FatalIsError(saved: seq<Saved>) {
    forall i :: 0 <= i < |saved| ==> (saved[i].result.errorIsFatal ==> saved[i].result.HasErrors())
  }

  lemma RangeErrs(s: Summary, saved: seq<Saved>, lo: nat, hi: nat)
    requires s.Bounded() && lo <= hi <= |saved| && FatalIsError(saved)
    ensures var r := Collected(s, ResultsOf(saved, lo, hi));
            && (r.HasErrors() || Errs(saved, hi) <==> s.HasErrors() || Errs(saved, lo))
            && (r.errorIsFatal || Fails(saved, hi) <==> s.errorIsFatal || Fails(saved, lo))
  {
    var rs := ResultsOf(saved, lo, hi);
    CollectedIff(s, rs);
    assert forall i :: lo <= i < hi ==> saved[i].result == rs[i - lo];
  }

  lemma {:induction false} CollectedErrs(s: Summary, saved: seq<Saved>, q: nat, limit: nat, d: Delivery)
    requires s.Bounded() && limit > 0 && StartOf(q, limit) <= |saved| && FatalIsError(saved)
    ensures var start := StartOf(q, limit);
            var r, stop := CollectedFrom(s, saved, start, limit, d.unreadable), Unreadable(d, limit, q, |saved|);
            && (r.HasErrors() <==> s.HasErrors() || stop || Errs(saved, start))
            && (r.errorIsFatal <==> s.errorIsFatal || stop || Fails(saved, start))
    decreases |saved| - StartOf(q, limit)
  {
    var start, count := StartOf(q, limit), |saved|;
    if start in d.unreadable {
      BatchNumber(q, limit);
    } else {
      var end := BatchEnd(start, limit, count);
      RangeErrs(s, saved, start, end);
      if HasMore(start, limit, count) {
        NextBatch(d, limit, q, count);
        CollectedErrs(Collected(s, ResultsOf(saved, start, end)), saved, q + 1, limit, d);
      } else {
        NoMoreBatches(d, limit, q, count);
      }
    }
  }

  lemma SavedFatal(b: Bag, option: Option<StorageOption>, d: Delivery)
    requires Fits(b, d)
    ensures FatalIsError(SaveEach(b, option, d)) && SavedFrom(Begun(b), SaveEach(b, option, d), 0, option, d)
  {
    var saved := SaveEach(b, option, d);
    forall i | 0 <= i < |saved| ensures saved[i].result.errorIsFatal ==> saved[i].result.HasErrors() {
      FatalHasErrors(b.records[i], b.contents[i], option, d.files[i]);
    }
  }

  /** The records after the batches from this place on, given how each file is saved. */
  function RecordsFrom(records: seq<Record>, saved: seq<Saved>, start: nat, limit: nat, unreadable: set<nat>)
    : (r: seq<Record>)
    requires |saved| == |records| && start <= |records| && limit > 0
    ensures |r| == |records|
    decreases |records| - start
  {
    if start in unreadable then records
    else
      var end := BatchEnd(start, limit, |records|);
      var next := Replaced(records, saved, start, end);
      if HasMore(start, limit, |records|) then RecordsFrom(next, saved, end, limit, unreadable) else next
  }

  lemma RangeIs(b: Bag, saved: seq<Saved>, lo: nat, hi: nat, option: Option<StorageOption>, d: Delivery)
    requires Fits(b, d) && SavedFrom(b, saved, lo, option, d) && lo <= hi <= |b.records|
    ensures SavedRange(b, lo, hi, option, d) == Replaced(b.records, saved, lo, hi)
  {
    var r := SavedRange(b, lo, hi, option, d);
    forall i | 0 <= i < |r| ensures r[i] == Replaced(b.records, saved, lo, hi)[i] {
      assert lo <= i < hi ==> saved[i] == SaveAt(b, i, option, d);
    }
  }

  lemma {:induction false} BatchesRecord(b: Bag, saved: seq<Saved>, start: nat, limit: nat,
                                         option: Option<StorageOption>, d: Delivery)
    requires Fits(b, d) && start <= |b.records| && limit > 0 && SavedFrom(b, saved, start, option, d)
    ensures Batches(b, start, limit, option, d).records == RecordsFrom(b.records, saved, start, limit, d.unreadable)
    decreases |b.records| - start
  {
    if start !in d.unreadable {
      var next, end := AfterBatch(b, start, limit, option, d), BatchEnd(start, limit, |b.records|);
      RangeIs(b, saved, start, end, option, d);
      SavedLater(b, saved, start, limit, option, d);
      if HasMore(start, limit, |b.records|) {
        BatchesRecord(next, saved, end, limit, option, d);
      }
    }
  }

  lemma {:induction false} EarlierStays(records: seq<Record>, saved: seq<Saved>, start: nat, limit: nat,
                                        unreadable: set<nat>, i: nat)
    requires |saved| == |records| && i < start <= |records| && limit > 0
    ensures RecordsFrom(records, saved, start, limit, unreadable)[i] == records[i]
    decreases |records| - start
  {
    if start !in unreadable && HasMore(start, limit, |records|) {
      var end := BatchEnd(start, limit, |records|);
      EarlierStays(Replaced(records, saved, start, end), saved, end, limit, unreadable, i);
    }
  }

  lemma {:induction false} AllReplaced(records: seq<Record>, saved: seq<Saved>, q: nat, limit: nat, d: Delivery, i: nat)
    requires |saved| == |records| && limit > 0 && StartOf(q, limit) <= i < |records|
    requires !Unreadable(d, limit, q, |records|)
    ensures RecordsFrom(records, saved, StartOf(q, limit), limit, d.unreadable)[i] == saved[i].record
    decreases |records| - StartOf(q, limit)
  {
    var start, count := StartOf(q, limit), |records|;
    BatchNumber(q, limit);
    assert start !in d.unreadable;
    var end := BatchEnd(start, limit, count);
    var next := Replaced(records, saved, start, end);
    if end <= i {
      NextBatch(d, limit, q, count);
      AllReplaced(next, saved, q + 1, limit, d, i);
    } else if HasMore(start, limit, count) {
      EarlierStays(next, saved, end, limit, d.unreadable, i);
    }
  }

  /** If every batch can be read, every file is tried in every delivery and what came of it is
      kept, even if other files fail. */
  lemma EveryFileIsTried(b: Bag, cfg: Settings, d: Delivery, i: nat)
    requires Fits(b, d) && cfg.limit > 0 && d.opening.Opened? && i < |b.records|
    requires !Unreadable(d, Limit(cfg, d), 0, |b.records|)
    ensures Deliver(b, cfg, d).1.records[i] == SaveAt(b, i, d.opening.option, d).record
  {
    var option := d.opening.option;
    SavedFatal(b, option, d);
    BatchesRecord(Begun(b), SaveEach(b, option, d), 0, Limit(cfg, d), option, d);
    AllReplaced(b.records, SaveEach(b, option, d), 0, Limit(cfg, d), d, i);
  }

  /** A bag of many small files is read in batches twenty times as long: one with fewer files
      than that in a single one. */
  lemma ManySmallFilesInOneBatch(b: Bag, cfg: Settings, d: Delivery)
    requires Fits(b, d) && cfg.limit > 0 && d.opening.Opened? && d.opening.manySmallFiles
    requires |b.records| < 20 * cfg.limit
    ensures Unreadable(d, Limit(cfg, d), 0, |b.records|) <==> 0 in d.unreadable
  {
    if 0 in d.unreadable {
      assert StartOf(0, Limit(cfg, d)) == 0;
    } else {
      NoMoreBatches(d, Limit(cfg, d), 0, |b.records|);
    }
  }

  /** Whether a delivery of the bag meets an error, and a fatal one, in terms of what it finds. */
  predicate MeetsError(b: Bag, cfg: Settings, d: Delivery)
    requires Fits(b, d) && cfg.limit > 0
  {
    !d.opening.Opened? || Unreadable(d, Limit(cfg, d), 0, |b.records|) || Errs(SaveEach(b, d.opening.option, d), 0)
  }

  predicate MeetsFatal(b: Bag, cfg: Settings, d: Delivery)
    requires Fits(b, d) && cfg.limit > 0
  {
    d.opening.Missing? ||
    (d.opening.Opened? &&
     (Unreadable(d, Limit(cfg, d), 0, |b.records|) || Fails(SaveEach(b, d.opening.option, d), 0)))
  }

  lemma StoreErrs(b: Bag, cfg: Settings, d: Delivery)
    requires Fits(b, d) && cfg.limit > 0
    ensures Store(b, cfg, d).result.HasErrors() <==> MeetsError(b, cfg, d)
    ensures Store(b, cfg, d).result.errorIsFatal <==> MeetsFatal(b, cfg, d)
  {
    if d.opening.Opened? {
      var s, option := Begun(b), d.opening.option;
      SavedFatal(b, option, d);
      BatchesCollect(s, SaveEach(b, option, d), 0, Limit(cfg, d), option, d);
      CollectedErrs(s.result, SaveEach(b, option, d), 0, Limit(cfg, d), d);
    }
  }

  /** The verdict on every delivery. It fails at once on a fatal error, however many attempts
      are left, and on any error at the last attempt; it is pushed on exactly if neither
      happens and the database, every batch and every file went without an error. */
  lemma StoreVerdict(b: Bag, cfg: Settings, d: Delivery)
    requires Fits(b, d) && cfg.limit > 0
    ensures var last := Next(b.result.attemptNumber) >= cfg.maxAttempts;
            Deliver(b, cfg, d).0 ==
            if MeetsFatal(b, cfg, d) || cfg.others.fatal then Failed
            else if last && (MeetsError(b, cfg, d) || cfg.others.errors) then Failed
            else if MeetsError(b, cfg, d) then Requeued
            else Pushed
  {
    StoreErrs(b, cfg, d);
  }

  /** One file with an unknown UUID fails the whole item at once. */
  lemma UnknownUuidFails(b: Bag, cfg: Settings, d: Delivery, i: nat)
    requires Fits(b, d) && cfg.limit > 0 && d.opening.Opened? && i < |b.records| && d.files[i].lookup.UuidUnknown?
    ensures Deliver(b, cfg, d).0 == Failed
  {
    LookupErrors(b.records[i], b.contents[i], d.opening.option, d.files[i]);
    assert SaveEach(b, d.opening.option, d)[i].result.errorIsFatal;
    StoreVerdict(b, cfg, d);
  }
}
