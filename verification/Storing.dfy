/** How the storer copies one file to long-term storage (workers/apt_storer.go): the retry
    loop, the temporary file for large files, and the size check that decides success. */
module Storing {
  import opened Collections
  import opened WorkSummaries
  import opened Options

  const MAX_UPLOAD_ATTEMPTS := 15
  const S3_LARGE_FILE_SIZE := 100 * 1024 * 1024

  datatype StorageOption = Standard | GlacierOnly

  /** "s3", "glacier", or the bucket of a Glacier-only storage option. */
  datatype Target = S3 | Glacier | Region

  /** The part of a GenericFile that the storer reads and writes. */
  datatype File = File(
    size: nat, option: StorageOption, needsSave: bool, uuidOk: bool,
    storedAt: bool, storageUrl: string, replicatedAt: bool, replicationUrl: string)

  /** One upload as the world saw it, and the size the bucket listed afterwards. */
  datatype Upload = Upload(to: Target, sent: string, error: bool, listed: Option<nat>, location: string)

  /** What a bucket lists after an upload: nothing, some size, or the size of what was sent. */
  datatype Listing = ListsNothing | Lists(size: nat) | ListsWhatWasSent

  /** How copying from the tar file to the temporary file goes. */
  datatype Copying = CannotCreate | StopsAfter(bytes: nat) | Completes

  /** The answers one upload attempt gets. */
  datatype Answer = Answer(
    region: bool, missing: seq<string>, tarReader: bool, copying: Copying, opens: bool,
    error: bool, listing: Listing, location: string)

  const FLAWLESS := Answer(true, [], true, Completes, true, false, ListsWhatWasSent, "https://storage")

  type Answers = a: seq<Answer> | |a| == MAX_UPLOAD_ATTEMPTS witness seq(MAX_UPLOAD_ATTEMPTS, (i: nat) => FLAWLESS)

  /** A StorageSummary: one file on its way to storage, with its temporary file. */
  datatype Job = Job(file: File, temp: Option<string>, log: seq<Upload>, result: Summary)

  type Saving = j: Job | j.result.Bounded()
    witness Job(File(0, Standard, true, true, false, "", false, ""), None, [], FRESH)

  predicate Large(file: File) {
    file.size > S3_LARGE_FILE_SIZE
  }

  function ListedSize(listing: Listing, sent: string): Option<nat> {
    match listing
    case ListsNothing => None
    case Lists(size) => Some(size)
    case ListsWhatWasSent => Some(|sent|)
  }

  predicate Accepted(u: Upload, size: nat) {
    u.listed == Some(size) && !u.error
  }

  predicate IsMarked(file: File, to: Target) {
    if to == Glacier then file.replicatedAt else file.storedAt
  }

  function Mark(file: File, to: Target, location: string): File {
    if to == Glacier then file.(replicatedAt := true, replicationUrl := location)
    else file.(storedAt := true, storageUrl := location)
  }

  // ----- one attempt -----

  /** A temporary file on disk, whether it may be used, and what is left in the tar reader. */
  datatype Extracted = Extracted(ok: bool, temp: Option<string>, left: string)

  function Extract(temp: Option<string>, content: string, size: nat, a: Answer): Extracted {
    if temp.Some? && temp.value != "" then Extracted(|temp.value| == size && a.opens, temp, content)
    else
      match a.copying
      case CannotCreate => Extracted(false, temp, content)
      case StopsAfter(k) => Extracted(false, Some(if k < |content| then content[..k] else content), "")
      case Completes => Extracted(|content| == size && a.opens, Some(content), "")
  }

  /** The errors recorded when the last attempt is not accepted. */
  function Complaints(u: Upload, size: nat): (r: seq<string>)
    ensures |r| > 0 <==> !Accepted(u, size)
  {
    (if u.listed.None? then ["nothing listed"] else if u.listed.value != size then ["wrong size"] else [])
    + (if u.error then ["upload error"] else [])
  }

  function Send(s: Saving, sent: string, to: Target, n: nat, a: Answer): (r: Saving)
    ensures r.temp == s.temp
  {
    var u := Upload(to, sent, a.error, ListedSize(a.listing, sent), a.location);
    var logged: Saving := s.(log := s.log + [u]);
    if Accepted(u, s.file.size) then logged.(file := Mark(s.file, to, a.location))
    else if n == MAX_UPLOAD_ATTEMPTS then logged.(result := s.result.WithErrors(Complaints(u, s.file.size)))
    else logged
  }

  /** A large file is copied to a temporary file first. What is sent is what the tar reader
      still holds, since the reader of the temporary file is never given to the uploader. */
  function DoUpload(s: Saving, content: string, to: Target, n: nat, a: Answer): Saving {
    if !a.region && to == Region then
      s.(result := s.result.WithErrors(["no region", "cannot save", "no uploader"]).Fatal())
    else if |a.missing| > 0 then s.(result := s.result.WithErrors(a.missing).Fatal())
    else if !a.tarReader then s.(result := s.result.WithError("no reader"))
    else if !Large(s.file) then Send(s, content, to, n, a)
    else
      var e := Extract(s.temp, content, s.file.size, a);
      if !e.ok then s.(temp := e.temp, result := s.result.WithError("no temporary file"))
      else Send(s.(temp := e.temp), e.left, to, n, a)
  }

  // ----- the retry loop -----

  function CopyFrom(s: Saving, content: string, to: Target, n: nat, answers: Answers): Saving
    requires 1 <= n <= MAX_UPLOAD_ATTEMPTS + 1
    decreases MAX_UPLOAD_ATTEMPTS + 1 - n
  {
    if n > MAX_UPLOAD_ATTEMPTS then s
    else
      var r := DoUpload(s, content, to, n, answers[n - 1]);
      if IsMarked(r.file, to) then r else CopyFrom(r, content, to, n + 1, answers)
  }

  function Copy(s: Saving, content: string, to: Target, answers: Answers): Saving {
    if !s.file.uuidOk then s.(result := s.result.WithErrors(["bad UUID", "cannot copy"]).Fatal())
    else CopyFrom(s, content, to, 1, answers)
  }

  // ----- what every step keeps -----

  /** The file's fields that storing never changes, and a log that only grows. */
  predicate Follows(s: Job, r: Job) {
    && r.file.size == s.file.size && r.file.option == s.file.option && r.file.needsSave == s.file.needsSave
    && r.file.uuidOk == s.file.uuidOk
    && s.log <= r.log
    && (s.file.storedAt ==> r.file.storedAt) && (s.file.replicatedAt ==> r.file.replicatedAt)
    && (s.result.HasErrors() ==> r.result.HasErrors())
  }

  predicate StorageChecked(file: File, log: seq<Upload>) {
    file.storedAt ==>
      exists i :: 0 <= i < |log| && log[i].to != Glacier && Accepted(log[i], file.size) &&
                  log[i].location == file.storageUrl
  }

  predicate ReplicationChecked(file: File, log: seq<Upload>) {
    file.replicatedAt ==>
      exists i :: 0 <= i < |log| && log[i].to == Glacier && Accepted(log[i], file.size) &&
                  log[i].location == file.replicationUrl
  }

  /** Every upload sent the whole content, or, of a large file, nothing. */
  predicate WholeOrNothing(file: File, log: seq<Upload>, content: string) {
    forall i :: 0 <= i < |log| ==> log[i].sent == content || (Large(file) && log[i].sent == "")
  }

  /** No upload was listed with a size other than that of what was sent. */
  predicate HonestlyListed(log: seq<Upload>) {
    forall i :: 0 <= i < |log| ==> log[i].listed == None || log[i].listed == Some(|log[i].sent|)
  }

  predicate Sound(file: File, log: seq<Upload>, content: string) {
    StorageChecked(file, log) && ReplicationChecked(file, log) && WholeOrNothing(file, log, content)
  }

  predicate HonestAnswer(a: Answer) {
    !a.listing.Lists?
  }

  predicate HonestAnswers(answers: Answers) {
    forall i :: 0 <= i < |answers| ==> HonestAnswer(answers[i])
  }

  lemma StorageStaysChecked(file: File, log: seq<Upload>, u: Upload)
    requires StorageChecked(file, log)
    ensures StorageChecked(file, log + [u])
  {
    if file.storedAt {
      var i :| 0 <= i < |log| && log[i].to != Glacier && Accepted(log[i], file.size) &&
        log[i].location == file.storageUrl;
      assert (log + [u])[i] == log[i];
    }
  }

  lemma ReplicationStaysChecked(file: File, log: seq<Upload>, u: Upload)
    requires ReplicationChecked(file, log)
    ensures ReplicationChecked(file, log + [u])
  {
    if file.replicatedAt {
      var i :| 0 <= i < |log| && log[i].to == Glacier && Accepted(log[i], file.size) &&
        log[i].location == file.replicationUrl;
      assert (log + [u])[i] == log[i];
    }
  }

  lemma LogStaysSound(file: File, log: seq<Upload>, content: string, u: Upload)
    requires Sound(file, log, content)
    requires u.sent == content || (Large(file) && u.sent == "")
    ensures Sound(file, log + [u], content)
    ensures Accepted(u, file.size) ==> Sound(Mark(file, u.to, u.location), log + [u], content)
  {
    StorageStaysChecked(file, log, u);
    ReplicationStaysChecked(file, log, u);
    assert (log + [u])[|log|] == u;
  }

  lemma SendKeeps(s: Saving, sent: string, content: string, to: Target, n: nat, a: Answer)
    requires Sound(s.file, s.log, content)
    requires sent == content || (Large(s.file) && sent == "")
    ensures var r := Send(s, sent, to, n, a); Follows(s, r) && Sound(r.file, r.log, content)
    ensures HonestlyListed(s.log) && HonestAnswer(a) ==> HonestlyListed(Send(s, sent, to, n, a).log)
  {
    LogStaysSound(s.file, s.log, content, Upload(to, sent, a.error, ListedSize(a.listing, sent), a.location));
  }

  lemma UploadKeeps(s: Saving, content: string, to: Target, n: nat, a: Answer)
    requires Sound(s.file, s.log, content)
    ensures var r := DoUpload(s, content, to, n, a); Follows(s, r) && Sound(r.file, r.log, content)
    ensures HonestlyListed(s.log) && HonestAnswer(a) ==> HonestlyListed(DoUpload(s, content, to, n, a).log)
  {
    if Large(s.file) {
      var e := Extract(s.temp, content, s.file.size, a);
      if e.ok {
        SendKeeps(s.(temp := e.temp), e.left, content, to, n, a);
      }
    } else {
      SendKeeps(s, content, content, to, n, a);
    }
  }

  lemma {:induction false} CopyFromKeeps(s: Saving, content: string, to: Target, n: nat, answers: Answers)
    requires 1 <= n <= MAX_UPLOAD_ATTEMPTS + 1
    requires Sound(s.file, s.log, content)
    ensures var r := CopyFrom(s, content, to, n, answers); Follows(s, r) && Sound(r.file, r.log, content)
    ensures HonestlyListed(s.log) && HonestAnswers(answers) ==> HonestlyListed(CopyFrom(s, content, to, n, answers).log)
    decreases MAX_UPLOAD_ATTEMPTS + 1 - n
  {
    if n <= MAX_UPLOAD_ATTEMPTS {
      UploadKeeps(s, content, to, n, answers[n - 1]);
      var r := DoUpload(s, content, to, n, answers[n - 1]);
      if !IsMarked(r.file, to) {
        CopyFromKeeps(r, content, to, n + 1, answers);
      }
    }
  }

  /** Copying keeps what is known of the file: it is marked only on an upload whose listed
      size was the file's, and what was sent is the whole file or nothing. */
  lemma CopyKeeps(s: Saving, content: string, to: Target, answers: Answers)
    requires Sound(s.file, s.log, content)
    ensures var r := Copy(s, content, to, answers); Follows(s, r) && Sound(r.file, r.log, content)
    ensures HonestlyListed(s.log) && HonestAnswers(answers) ==> HonestlyListed(Copy(s, content, to, answers).log)
  {
    if s.file.uuidOk {
      CopyFromKeeps(s, content, to, 1, answers);
    }
  }

  // ----- a copy ends marked or with an error -----

  lemma LastUploadDecides(s: Saving, content: string, to: Target, a: Answer)
    ensures var r := DoUpload(s, content, to, MAX_UPLOAD_ATTEMPTS, a); IsMarked(r.file, to) || r.result.HasErrors()
  {
  }

  lemma {:induction false} CopyFromDecides(s: Saving, content: string, to: Target, n: nat, answers: Answers)
    requires 1 <= n <= MAX_UPLOAD_ATTEMPTS
    ensures var r := CopyFrom(s, content, to, n, answers); IsMarked(r.file, to) || r.result.HasErrors()
    decreases MAX_UPLOAD_ATTEMPTS - n
  {
    var r := DoUpload(s, content, to, n, answers[n - 1]);
    if n == MAX_UPLOAD_ATTEMPTS {
      LastUploadDecides(s, content, to, answers[n - 1]);
      assert CopyFrom(r, content, to, n + 1, answers) == r;
    } else if !IsMarked(r.file, to) {
      CopyFromDecides(r, content, to, n + 1, answers);
    }
  }

  /** After a copy the file is marked, or there is an error: no silent failure. */
  lemma CopyDecides(s: Saving, content: string, to: Target, answers: Answers)
    ensures var r := Copy(s, content, to, answers); IsMarked(r.file, to) || r.result.HasErrors()
  {
    if s.file.uuidOk {
      CopyFromDecides(s, content, to, 1, answers);
    }
  }

  // ----- large files -----

  /** A temporary file that is neither empty nor of the right size is never replaced. */
  predicate Stump(temp: Option<string>, size: nat) {
    temp.Some? && temp.value != "" && |temp.value| != size
  }

  lemma {:induction false} StumpBlocksFrom(s: Saving, content: string, to: Target, n: nat, answers: Answers)
    requires 1 <= n <= MAX_UPLOAD_ATTEMPTS + 1
    requires Large(s.file) && Stump(s.temp, s.file.size) && !IsMarked(s.file, to)
    ensures var r := CopyFrom(s, content, to, n, answers); r.file == s.file && r.temp == s.temp && r.log == s.log
    decreases MAX_UPLOAD_ATTEMPTS + 1 - n
  {
    if n <= MAX_UPLOAD_ATTEMPTS {
      StumpBlocksFrom(DoUpload(s, content, to, n, answers[n - 1]), content, to, n + 1, answers);
    }
  }

  /** With such a stump in the way no answer of the world gets the file uploaded. */
  lemma StumpBlocks(s: Saving, content: string, to: Target, answers: Answers)
    requires Large(s.file) && Stump(s.temp, s.file.size) && !IsMarked(s.file, to)
    ensures var r := Copy(s, content, to, answers);
            r.file == s.file && r.temp == s.temp && r.log == s.log && r.result.HasErrors()
  {
    if s.file.uuidOk {
      StumpBlocksFrom(s, content, to, 1, answers);
      CopyDecides(s, content, to, answers);
    }
  }

  /** An attempt at which nothing goes wrong outside the storer. */
  predicate Flawless(a: Answer) {
    a.region && a.missing == [] && a.tarReader && a.copying == Completes && a.opens && !a.error &&
    a.listing == ListsWhatWasSent
  }

  predicate AllFlawless(answers: Answers) {
    forall i :: 0 <= i < |answers| ==> Flawless(answers[i])
  }

  function CleanUpload(to: Target, sent: string, location: string): Upload {
    Upload(to, sent, false, Some(|sent|), location)
  }

  lemma FlawlessUpload(s: Saving, content: string, to: Target, n: nat, a: Answer)
    requires Flawless(a) && n < MAX_UPLOAD_ATTEMPTS
    requires |content| == s.file.size
    requires !Large(s.file) || (s.temp.Some? && |s.temp.value| == s.file.size)
    ensures DoUpload(s, content, to, n, a) ==
            s.(log := s.log + [CleanUpload(to, content, a.location)], file := Mark(s.file, to, a.location))
  {
  }

  lemma FlawlessFirstUpload(s: Saving, content: string, to: Target, n: nat, a: Answer)
    requires Flawless(a) && n < MAX_UPLOAD_ATTEMPTS
    requires |content| == s.file.size && Large(s.file) && (s.temp == None || s.temp == Some(""))
    ensures DoUpload(s, content, to, n, a) ==
            s.(log := s.log + [CleanUpload(to, "", a.location)], temp := Some(content))
  {
  }

  /** Nothing going wrong, a small file, or a large one whose temporary file is ready, is
      stored by one upload of its content. */
  lemma FlawlessCopy(s: Saving, content: string, to: Target, answers: Answers)
    requires s.file.uuidOk && AllFlawless(answers) && |content| == s.file.size
    requires !Large(s.file) || (s.temp.Some? && |s.temp.value| == s.file.size)
    ensures Copy(s, content, to, answers) ==
            s.(log := s.log + [CleanUpload(to, content, answers[0].location)],
              file := Mark(s.file, to, answers[0].location))
  {
    FlawlessUpload(s, content, to, 1, answers[0]);
  }

  /** Nothing going wrong, a large file without a temporary file takes two uploads: the
      first sends no bytes at all, the second the content. */
  lemma FlawlessLargeCopy(s: Saving, content: string, to: Target, answers: Answers)
    requires s.file.uuidOk && AllFlawless(answers) && |content| == s.file.size
    requires Large(s.file) && (s.temp == None || s.temp == Some("")) && !IsMarked(s.file, to)
    ensures Copy(s, content, to, answers) ==
            s.(log := s.log + [CleanUpload(to, "", answers[0].location), CleanUpload(to, content, answers[1].location)],
               file := Mark(s.file, to, answers[1].location), temp := Some(content))
  {
    FlawlessFirstUpload(s, content, to, 1, answers[0]);
    var r := DoUpload(s, content, to, 1, answers[0]);
    FlawlessUpload(r, content, to, 2, answers[1]);
    Assoc(s.log, [CleanUpload(to, "", answers[0].location)], [CleanUpload(to, content, answers[1].location)]);
    assert CopyFrom(r, content, to, 2, answers) == DoUpload(r, content, to, 2, answers[1]);
  }

  /** Nothing going wrong outside, a large unmarked file gets stored exactly when no stump is
      in the way. */
  lemma LargeFileIsStoredIff(s: Saving, content: string, to: Target, answers: Answers)
    requires s.file.uuidOk && AllFlawless(answers) && |content| == s.file.size
    requires Large(s.file) && !IsMarked(s.file, to)
    ensures IsMarked(Copy(s, content, to, answers).file, to) <==> !Stump(s.temp, s.file.size)
  {
    if Stump(s.temp, s.file.size) {
      StumpBlocks(s, content, to, answers);
    } else if s.temp == None || s.temp == Some("") {
      FlawlessLargeCopy(s, content, to, answers);
    } else {
      FlawlessCopy(s, content, to, answers);
    }
  }

  // ----- in place -----

  class StorageSummary {
    var file: File
    var temp: Option<string>
    var log: seq<Upload>
    var result: Summary
    const content: string

    function View(): Job
      reads this
    {
      Job(file, temp, log, result)
    }

    ghost predicate Valid()
      reads this
    {
      result.Bounded()
    }

    constructor (file: File, temp: Option<string>, log: seq<Upload>, content: string)
      ensures View() == Job(file, temp, log, FRESH) && this.content == content && Valid()
    {
      this.file, this.temp, this.log, this.result, this.content := file, temp, log, FRESH, content;
    }

    /** createTempFile: `reader` is what the tar reader holds, `left` what it holds after. */
    method CreateTempFile(reader: string, copying: Copying) returns (ok: bool, left: string)
      modifies this`temp
      ensures match copying
              case CannotCreate => !ok && temp == old(temp)
              case StopsAfter(k) => !ok && temp == Some(if k < |reader| then reader[..k] else reader)
              case Completes => ok == (|reader| == file.size) && temp == Some(reader) && left == ""
    {
      match copying {
        case CannotCreate =>
          return false, reader;
        case StopsAfter(k) =>
          temp := Some(if k < |reader| then reader[..k] else reader);
          return false, "";
        case Completes =>
          temp := Some(reader);
          return |reader| == file.size, "";
      }
    }

    /** getFileReader, for a file large enough to need one. */
    method GetFileReader(a: Answer) returns (ok: bool, left: string)
      requires Large(file)
      modifies this`temp
      ensures var e := Extract(old(temp), content, file.size, a);
              ok == e.ok && temp == e.temp && (ok ==> left == e.left)
    {
      left := content;
      if temp.None? {
        ok, left := CreateTempFile(left, a.copying);
        if !ok {
          return;
        }
      }
      if temp == Some("") {
        ok, left := CreateTempFile(left, a.copying);
        if !ok {
          return;
        }
      }
      ok := temp.Some? && |temp.value| == file.size && a.opens;
    }

    method SendWithSize(sent: string, to: Target, attemptNumber: nat, a: Answer)
      requires Valid()
      modifies this
      ensures Valid() && View() == Send(old(View()), sent, to, attemptNumber, a)
    {
      var u := Upload(to, sent, a.error, ListedSize(a.listing, sent), a.location);
      log := log + [u];
      if u.listed == Some(file.size) && !u.error {
        file := Mark(file, to, a.location);
      } else if attemptNumber == MAX_UPLOAD_ATTEMPTS {
        result := result.WithErrors(Complaints(u, file.size));
      }
    }

    method DoUploadOnce(to: Target, attemptNumber: nat, a: Answer)
      requires Valid()
      modifies this
      ensures Valid() && View() == DoUpload(old(View()), content, to, attemptNumber, a)
    {
      if !a.region && to == Region {
        result := result.WithErrors(["no region", "cannot save", "no uploader"]).Fatal();
        return;
      }
      if |a.missing| > 0 {
        result := result.WithErrors(a.missing).Fatal();
        return;
      }
      if !a.tarReader {
        result := result.WithError("no reader");
        return;
      }
      var reader := content;
      if Large(file) {
        var ok;
        ok, reader := GetFileReader(a);
        if !ok {
          result := result.WithError("no temporary file");
          return;
        }
      }
      SendWithSize(reader, to, attemptNumber, a);
    }

    method UploadUntilMarked(to: Target, answers: Answers)
      requires Valid()
      modifies this
      ensures Valid() && View() == CopyFrom(old(View()), content, to, 1, answers)
    {
      ghost var all := CopyFrom(View(), content, to, 1, answers);
      var n := 1;
      while n <= MAX_UPLOAD_ATTEMPTS
        invariant 1 <= n <= MAX_UPLOAD_ATTEMPTS + 1 && Valid()
        invariant CopyFrom(View(), content, to, n, answers) == all
      {
        DoUploadOnce(to, n, answers[n - 1]);
        if IsMarked(file, to) {
          return;
        }
        n := n + 1;
      }
    }

    /** copyToLongTermStorage. */
    method CopyToLongTermStorage(to: Target, answers: Answers)
      requires Valid()
      modifies this
      ensures Valid() && View() == Copy(old(View()), content, to, answers)
      ensures IsMarked(file, to) || result.HasErrors()
    {
      CopyDecides(View(), content, to, answers);
      if !file.uuidOk {
        result := result.WithErrors(["bad UUID", "cannot copy"]).Fatal();
      } else {
        UploadUntilMarked(to, answers);
      }
    }
  }
}
