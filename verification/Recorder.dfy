/** Recording ingested files in Pharos (workers/apt_recorder.go): every attempt builds what
    is missing, creates the files Pharos does not know and updates those it does. */
module Recorder {
  import opened Collections
  import opened IngestEvents

  const GENERIC_FILE_BATCH_SIZE := 100

  /** A file record in the local database. An id of zero means that Pharos does not know it. */
  datatype File = File(info: Info, id: nat, events: seq<Event>, checksums: seq<Checksum>)

  /** What was sent to Pharos about one file. */
  datatype Sent =
    | Created(events: seq<Event>, checksums: seq<Checksum>)
    | Updated(events: seq<Event>, checksums: seq<Checksum>)

  datatype Id = Id(key: string, id: nat)

  /** A file in Pharos's answer to a batch: its new id, and those of its children. */
  datatype SavedFile = SavedFile(id: nat, events: seq<Id>, checksums: seq<Id>)

  /** What happens to one file in one attempt: the UUIDs for new events, the files of its
      identifier in the answer, and whether the local database could be written. */
  datatype Answer = Answer(uuids: Uuids, saved: seq<SavedFile>, stored: bool)

  // ----- ids that Pharos assigned -----

  /** The first event of that UUID, or the length of the list. */
  function FirstEvent(events: seq<Event>, uuid: string): (k: nat)
    ensures k <= |events| && (k < |events| ==> events[k].uuid == uuid) &&
            forall j :: 0 <= j < k ==> events[j].uuid != uuid
    decreases |events|
  {
    if |events| == 0 || events[0].uuid == uuid then 0 else 1 + FirstEvent(events[1..], uuid)
  }

  /** The first event of that UUID gets its id and all else stays. If there is none, the
      answer is an error and nothing changes. */
  function SetEventId(events: seq<Event>, i: Id): (r: seq<Event>)
    ensures |r| == |events|
    ensures forall k :: 0 <= k < |r| ==>
              r[k] == if k == FirstEvent(events, i.key) then events[k].(id := i.id) else events[k]
    decreases |events|
  {
    if |events| == 0 then []
    else if events[0].uuid == i.key then [events[0].(id := i.id)] + events[1..]
    else [events[0]] + SetEventId(events[1..], i)
  }

  function SetEventIds(events: seq<Event>, ids: seq<Id>): (r: seq<Event>)
    ensures SameEvents(events, r)
    decreases |ids|
  {
    if |ids| == 0 then events else SetEventIds(SetEventId(events, ids[0]), ids[1..])
  }

  /** GetChecksumByDigest: the first checksum of that digest, or the length of the list. */
  function FirstOfDigest(checksums: seq<Checksum>, digest: string): (k: nat)
    ensures k <= |checksums| && (k < |checksums| ==> checksums[k].digest == digest)
    ensures forall j :: 0 <= j < k ==> checksums[j].digest != digest
    decreases |checksums|
  {
    if |checksums| == 0 || checksums[0].digest == digest then 0 else 1 + FirstOfDigest(checksums[1..], digest)
  }

  /** The last checksum of that digest, which the comment on GetChecksumByDigest promises. */
  function LastOfDigest(checksums: seq<Checksum>, digest: string): (k: nat)
    ensures k <= |checksums| && (k < |checksums| ==> checksums[k].digest == digest)
    ensures k < |checksums| ==> forall j :: k < j < |checksums| ==> checksums[j].digest != digest
    ensures k == |checksums| ==> forall j :: 0 <= j < |checksums| ==> checksums[j].digest != digest
    decreases |checksums|
  {
    if |checksums| == 0 then 0
    else
      var n := |checksums| - 1;
      if checksums[n].digest == digest then n
      else
        var k := LastOfDigest(checksums[..n], digest);
        if k < n then k else n + 1
  }

  /** The first and the last are the same exactly when no two checksums share the digest. */
  lemma FirstIsLastIff(checksums: seq<Checksum>, digest: string)
    ensures FirstOfDigest(checksums, digest) == LastOfDigest(checksums, digest) <==>
            forall i, j :: 0 <= i < j < |checksums| ==>
              !(checksums[i].digest == digest && checksums[j].digest == digest)
  {
    var first, last := FirstOfDigest(checksums, digest), LastOfDigest(checksums, digest);
    if first != last {
      assert first < last < |checksums|;
    }
  }

  /** The first checksum of that digest gets its id and all else stays. */
  function SetChecksumId(checksums: seq<Checksum>, i: Id): (r: seq<Checksum>)
    ensures |r| == |checksums|
    ensures forall k :: 0 <= k < |r| ==>
              r[k] == if k == FirstOfDigest(checksums, i.key) then checksums[k].(id := i.id) else checksums[k]
    decreases |checksums|
  {
    if |checksums| == 0 then []
    else if checksums[0].digest == i.key then [checksums[0].(id := i.id)] + checksums[1..]
    else [checksums[0]] + SetChecksumId(checksums[1..], i)
  }

  function SetChecksumIds(checksums: seq<Checksum>, ids: seq<Id>): (r: seq<Checksum>)
    ensures SameChecksums(checksums, r)
    decreases |ids|
  {
    if |ids| == 0 then checksums else SetChecksumIds(SetChecksumId(checksums, ids[0]), ids[1..])
  }

  /** The same events but for their ids. */
  predicate SameEvents(before: seq<Event>, after: seq<Event>) {
    |before| == |after| && forall k :: 0 <= k < |before| ==> after[k] == before[k].(id := after[k].id)
  }

  predicate SameChecksums(before: seq<Checksum>, after: seq<Checksum>) {
    |before| == |after| && forall k :: 0 <= k < |before| ==> after[k] == before[k].(id := after[k].id)
  }

  function Merge(f: File, s: SavedFile): File {
    f.(id := s.id, events := SetEventIds(f.events, s.events), checksums := SetChecksumIds(f.checksums, s.checksums))
  }

  function MergeAll(f: File, saved: seq<SavedFile>): (r: File)
    ensures SameEvents(f.events, r.events) && SameChecksums(f.checksums, r.checksums) && r.info == f.info
    ensures |saved| > 0 ==> r.id == saved[|saved| - 1].id
    ensures |saved| == 0 ==> r == f
    decreases |saved|
  {
    if |saved| == 0 then f else MergeAll(Merge(f, saved[0]), saved[1..])
  }

  // ----- one attempt at one file -----

  /** Errors in building are recorded as fatal, but what was built is still sent. */
  function Prepared(f: File, uuids: Uuids): File {
    f.(events := Build(f.info, f.events, uuids).events, checksums := Sum(f.info, f.checksums).checksums)
  }

  function UnsavedEvents(events: seq<Event>): (r: seq<Event>)
    ensures forall k :: 0 <= k < |r| ==> r[k] in events && r[k].id == 0
    decreases |events|
  {
    if |events| == 0 then []
    else UnsavedEvents(events[..|events| - 1]) + if events[|events| - 1].id == 0 then [events[|events| - 1]] else []
  }

  function UnsavedChecksums(checksums: seq<Checksum>): (r: seq<Checksum>)
    ensures forall k :: 0 <= k < |r| ==> r[k] in checksums && r[k].id == 0
    decreases |checksums|
  {
    if |checksums| == 0 then []
    else
      var last := checksums[|checksums| - 1];
      UnsavedChecksums(checksums[..|checksums| - 1]) + if last.id == 0 then [last] else []
  }

  /** The record after an attempt, and what was sent. The answer to an update is dropped. */
  datatype Outcome = Outcome(file: File, sent: seq<Sent>)

  function Attempt(f: File, a: Answer): Outcome {
    if !f.info.needsSave then Outcome(f, [])
    else
      var p := Prepared(f, a.uuids);
      if p.id == 0 then
        Outcome(if a.stored then MergeAll(p, a.saved) else f, [Created(p.events, p.checksums)])
      else
        Outcome(if a.stored then p else f, [Updated(UnsavedEvents(p.events), UnsavedChecksums(p.checksums))])
  }

  datatype History = History(file: File, log: seq<Sent>)

  function Run(h: History, answers: seq<Answer>): History
    decreases |answers|
  {
    if |answers| == 0 then h
    else
      var o := Attempt(h.file, answers[0]);
      Run(History(o.file, h.log + o.sent), answers[1..])
  }

  // ----- a file is created once -----

  /** An update that sends no child with an id. */
  predicate IsBareUpdate(s: Sent) {
    s.Updated? && (forall k :: 0 <= k < |s.events| ==> s.events[k].id == 0) &&
    (forall k :: 0 <= k < |s.checksums| ==> s.checksums[k].id == 0)
  }

  predicate OnlyBareUpdates(log: seq<Sent>, from: nat) {
    forall k :: from <= k < |log| ==> IsBareUpdate(log[k])
  }

  lemma KnownFileAttempt(f: File, a: Answer)
    requires f.id != 0
    ensures Attempt(f, a).file.id == f.id && OnlyBareUpdates(Attempt(f, a).sent, 0)
  {
  }

  /** Once its id is in the record, a file is only ever updated, and an update sends no child
      that has an id. */
  lemma {:induction false} KnownFileIsOnlyUpdated(h: History, answers: seq<Answer>)
    requires h.file.id != 0
    ensures var r := Run(h, answers); r.file.id == h.file.id && h.log <= r.log && OnlyBareUpdates(r.log, |h.log|)
    decreases |answers|
  {
    if |answers| > 0 {
      var o := Attempt(h.file, answers[0]);
      KnownFileAttempt(h.file, answers[0]);
      var next := History(o.file, h.log + o.sent);
      KnownFileIsOnlyUpdated(next, answers[1..]);
      var log := Run(h, answers).log;
      forall k | |h.log| <= k < |log| ensures IsBareUpdate(log[k]) {
        if k < |next.log| {
          assert log[k] == next.log[k] == o.sent[k - |h.log|];
        }
      }
    }
  }

  /** A file that Pharos answered with an id is in no later creation, if the record was
      stored. */
  lemma AnsweredFileIsNotCreatedAgain(h: History, a: Answer, answers: seq<Answer>)
    requires h.file.info.needsSave && h.file.id == 0
    requires a.stored && |a.saved| > 0 && a.saved[|a.saved| - 1].id != 0
    ensures Run(h, [a] + answers).file.id == a.saved[|a.saved| - 1].id
    ensures OnlyBareUpdates(Run(h, [a] + answers).log, |h.log| + 1)
  {
    var o := Attempt(h.file, a);
    var next := History(o.file, h.log + o.sent);
    Halves([a], answers);
    assert ([a] + answers)[0] == a && ([a] + answers)[1..] == answers;
    KnownFileIsOnlyUpdated(next, answers);
  }

  /** If the record was not stored, the file is created a second time, with events made
      anew. */
  lemma UnstoredFileIsCreatedAgain(f: File, a: Answer, b: Answer)
    requires f.info.needsSave && f.id == 0 && !a.stored
    ensures var r := Run(History(f, []), [a, b]);
            |r.log| == 2 && r.log[0].Created? && r.log[1].Created?
            && r.log[0].events == Prepared(f, a.uuids).events && r.log[1].events == Prepared(f, b.uuids).events
  {
    var o := Attempt(f, a);
    var h := History(o.file, o.sent);
    assert [a, b][1..] == [b] && [b][1..] == [] && [] + o.sent == o.sent;
    var p := Attempt(h.file, b);
    assert Run(History(p.file, h.log + p.sent), []) == History(p.file, h.log + p.sent);
    assert Run(h, [b]) == Run(History(p.file, h.log + p.sent), []);
  }

  // ----- what an update saved is sent again -----

  ghost predicate Complete(f: File) {
    forall uuids: Uuids :: Prepared(f, uuids) == f
  }

  function Repeated<T>(x: T, n: nat): (r: seq<T>)
    ensures |r| == n && forall k :: 0 <= k < n ==> r[k] == x
    decreases n
  {
    if n == 0 then [] else [x] + Repeated(x, n - 1)
  }

  lemma {:induction false} CompleteChildrenAreResent(h: History, answers: seq<Answer>)
    requires h.file.info.needsSave && h.file.id != 0 && Complete(h.file)
    ensures var u := Updated(UnsavedEvents(h.file.events), UnsavedChecksums(h.file.checksums));
            Run(h, answers) == History(h.file, h.log + Repeated(u, |answers|))
    decreases |answers|
  {
    var u := Updated(UnsavedEvents(h.file.events), UnsavedChecksums(h.file.checksums));
    if |answers| > 0 {
      assert Prepared(h.file, answers[0].uuids) == h.file;
      CompleteChildrenAreResent(History(h.file, h.log + [u]), answers[1..]);
      Assoc(h.log, [u], Repeated(u, |answers| - 1));
    } else {
      Nothing(h.log);
    }
  }

  /** What an attempt prepares without an error needs no more preparing. */
  lemma PreparedIsComplete(f: File, uuids: Uuids)
    requires IsUrl(f.info.storageUrl) && Build(f.info, f.events, uuids).ok && Sum(f.info, f.checksums).ok
    ensures Complete(Prepared(f, uuids))
  {
    SumAgain(f.info, f.checksums);
    forall again: Uuids ensures Prepared(Prepared(f, uuids), again) == Prepared(f, uuids) {
      IdempotentIff(f.info, f.events, uuids, again);
    }
  }

  /** The loop variable of the update loop is overwritten with the answer, so the ids that
      Pharos gave the children of an updated file never reach the record: once an attempt has
      built all children and stored the record, every later attempt sends exactly the same
      children again. */
  lemma UpdatedChildrenAreResent(h: History, a: Answer, answers: seq<Answer>)
    requires h.file.info.needsSave && h.file.id != 0 && IsUrl(h.file.info.storageUrl) && a.stored
    requires Build(h.file.info, h.file.events, a.uuids).ok && Sum(h.file.info, h.file.checksums).ok
    ensures var p := Prepared(h.file, a.uuids);
            var u := Updated(UnsavedEvents(p.events), UnsavedChecksums(p.checksums));
            Run(h, [a] + answers) == History(p, h.log + Repeated(u, 1 + |answers|))
  {
    var p := Prepared(h.file, a.uuids);
    var u := Updated(UnsavedEvents(p.events), UnsavedChecksums(p.checksums));
    PreparedIsComplete(h.file, a.uuids);
    CompleteChildrenAreResent(History(p, h.log + [u]), answers);
    Halves([a], answers);
    Assoc(h.log, [u], Repeated(u, |answers|));
  }

  // ----- one UUID for one fact -----

  predicate Knows(events: seq<Event>, e: Event) {
    exists k :: 0 <= k < |events| && SlotOf(events[k]) == SlotOf(e) && events[k].uuid == e.uuid
  }

  predicate KnowsAll(events: seq<Event>, some: seq<Event>) {
    forall k :: 0 <= k < |some| ==> Knows(events, some[k])
  }

  /** Everything that was sent is in the record, which has one event for each fact. */
  predicate Tidy(h: History) {
    && Distinguishable(h.file.info) && Consistent(h.file.events) && AtMostOne(h.file.events)
    && forall k :: 0 <= k < |h.log| ==> KnowsAll(h.file.events, h.log[k].events)
  }

  lemma KnowsStays(before: seq<Event>, after: seq<Event>, e: Event)
    requires Knows(before, e) && (before <= after || SameEvents(before, after))
    ensures Knows(after, e)
  {
    var k :| 0 <= k < |before| && SlotOf(before[k]) == SlotOf(e) && before[k].uuid == e.uuid;
    assert SlotOf(after[k]) == SlotOf(e) && after[k].uuid == e.uuid;
  }

  lemma SameEventsStayTidy(before: seq<Event>, after: seq<Event>)
    requires SameEvents(before, after) && Consistent(before) && AtMostOne(before)
    ensures Consistent(after) && AtMostOne(after)
  {
    assert forall k :: 0 <= k < |before| ==> SlotOf(after[k]) == SlotOf(before[k]);
  }

  lemma KnowsOwn(events: seq<Event>, some: seq<Event>)
    requires forall k :: 0 <= k < |some| ==> some[k] in events
    ensures KnowsAll(events, some)
  {
    forall k | 0 <= k < |some| ensures Knows(events, some[k]) {
      var j :| 0 <= j < |events| && events[j] == some[k];
    }
  }

  lemma AttemptStaysTidy(h: History, a: Answer)
    requires Tidy(h) && a.stored
    ensures var o := Attempt(h.file, a); Tidy(History(o.file, h.log + o.sent))
  {
    if h.file.info.needsSave {
      var p := Prepared(h.file, a.uuids);
      var o := Attempt(h.file, a);
      BuildKeeps(h.file.info, h.file.events, a.uuids);
      SameEventsStayTidy(p.events, o.file.events);
      KnowsOwn(p.events, o.sent[0].events);
      var log := h.log + o.sent;
      forall k | 0 <= k < |log| ensures KnowsAll(o.file.events, log[k].events) {
        forall j | 0 <= j < |log[k].events| ensures Knows(o.file.events, log[k].events[j]) {
          if k < |h.log| {
            assert KnowsAll(h.file.events, h.log[k].events);
            KnowsStays(h.file.events, p.events, log[k].events[j]);
          }
          KnowsStays(p.events, o.file.events, log[k].events[j]);
        }
      }
    } else {
      Nothing(h.log);
    }
  }

  lemma {:induction false} RunStaysTidy(h: History, answers: seq<Answer>)
    requires Tidy(h) && forall k :: 0 <= k < |answers| ==> answers[k].stored
    ensures Tidy(Run(h, answers))
    decreases |answers|
  {
    if |answers| > 0 {
      AttemptStaysTidy(h, answers[0]);
      var o := Attempt(h.file, answers[0]);
      RunStaysTidy(History(o.file, h.log + o.sent), answers[1..]);
    }
  }

  /** Over all attempts, whatever Pharos answers, two events sent about the same fact of a
      file have the same UUID. */
  lemma OneUuidForOneFact(f: File, answers: seq<Answer>, i: nat, j: nat, k: nat, l: nat)
    requires Distinguishable(f.info) && Consistent(f.events) && AtMostOne(f.events) &&
             forall n :: 0 <= n < |answers| ==> answers[n].stored
    requires i < |Run(History(f, []), answers).log| && j < |Run(History(f, []), answers).log[i].events|
    requires k < |Run(History(f, []), answers).log| && l < |Run(History(f, []), answers).log[k].events|
    requires var log := Run(History(f, []), answers).log;
             SlotOf(log[i].events[j]) == SlotOf(log[k].events[l]) && SlotOf(log[i].events[j]) != AnythingElse
    ensures var log := Run(History(f, []), answers).log; log[i].events[j].uuid == log[k].events[l].uuid
  {
    RunStaysTidy(History(f, []), answers);
    var r := Run(History(f, []), answers);
    var e, g := r.log[i].events[j], r.log[k].events[l];
    assert KnowsAll(r.file.events, r.log[i].events) && KnowsAll(r.file.events, r.log[k].events);
    var a :| 0 <= a < |r.file.events| && SlotOf(r.file.events[a]) == SlotOf(e) && r.file.events[a].uuid == e.uuid;
    var b :| 0 <= b < |r.file.events| && SlotOf(r.file.events[b]) == SlotOf(g) && r.file.events[b].uuid == g.uuid;
    assert !(a < b) && !(b < a);
  }

  // ----- in place -----

  class APTRecorder {
    var files: seq<File>
    var sent: seq<seq<Sent>>

    constructor (files: seq<File>)
      ensures this.files == files && |sent| == |files| && forall k :: 0 <= k < |sent| ==> sent[k] == []
    {
      this.files := files;
      this.sent := seq(|files|, i => []);
    }

    /** CloneWithoutSavedChildren, for the events and for the checksums. */
    static method WithoutSaved(f: File) returns (events: seq<Event>, checksums: seq<Checksum>)
      ensures events == UnsavedEvents(f.events) && checksums == UnsavedChecksums(f.checksums)
    {
      events, checksums := [], [];
      for k := 0 to |f.events|
        invariant events == UnsavedEvents(f.events[..k])
      {
        PrefixStep(f.events, k);
        if f.events[k].id == 0 {
          events := events + [f.events[k]];
        }
      }
      Whole(f.events);
      for k := 0 to |f.checksums|
        invariant checksums == UnsavedChecksums(f.checksums[..k])
      {
        PrefixStep(f.checksums, k);
        if f.checksums[k].id == 0 {
          checksums := checksums + [f.checksums[k]];
        }
      }
      Whole(f.checksums);
    }

    static method MergeSaved(f: File, saved: seq<SavedFile>) returns (r: File)
      ensures r == MergeAll(f, saved)
      ensures SameEvents(f.events, r.events) && SameChecksums(f.checksums, r.checksums) && r.info == f.info
    {
      r := f;
      var k := 0;
      while k < |saved|
        invariant k <= |saved| && MergeAll(r, saved[k..]) == MergeAll(f, saved)
      {
        SuffixStep(saved, k);
        r := Merge(r, saved[k]);
        k := k + 1;
      }
    }

    /** saveFiles for one file of a batch. */
    method SaveFile(i: nat, a: Answer)
      requires i < |files| == |sent|
      modifies this
      ensures var o := Attempt(old(files)[i], a);
              files == old(files)[i := o.file] && sent == old(sent)[i := old(sent)[i] + o.sent]
    {
      var f := files[i];
      if !f.info.needsSave {
        assert sent[i] + [] == sent[i];
        return;
      }
      var g := new GenericFile(f.info, f.events, f.checksums);
      var ok := g.BuildIngestEvents(a.uuids);
      var p := f.(events := g.events, checksums := Sum(f.info, f.checksums).checksums);
      assert p == Prepared(f, a.uuids);
      if p.id == 0 {
        sent := sent[i := sent[i] + [Created(p.events, p.checksums)]];
        p := MergeSaved(p, a.saved);
      } else {
        var events, checksums := WithoutSaved(p);
        sent := sent[i := sent[i] + [Updated(events, checksums)]];
      }
      if a.stored {
        files := files[i := p];
      }
    }

    predicate Done(before: seq<File>, log: seq<seq<Sent>>, answers: seq<Answer>, n: nat)
      requires |before| == |log| == |answers| && n <= |before|
      reads this
    {
      && |files| == |before| && |sent| == |before|
      && (forall k :: 0 <= k < n ==>
           files[k] == Attempt(before[k], answers[k]).file && sent[k] == log[k] + Attempt(before[k], answers[k]).sent)
      && (forall k :: n <= k < |before| ==> files[k] == before[k] && sent[k] == log[k])
    }

    /** saveFiles: batches of a hundred, until one is shorter. Every file is attempted once. */
    method SaveFiles(answers: seq<Answer>)
      requires |files| == |sent| == |answers|
      modifies this
      ensures Done(old(files), old(sent), answers, |answers|)
    {
      var offset, more := 0, true;
      while more
        invariant 0 <= offset <= |answers| && Done(old(files), old(sent), answers, offset) &&
                  (!more ==> offset == |answers|)
        decreases more, |answers| - offset
      {
        var end := if offset + GENERIC_FILE_BATCH_SIZE < |answers| then offset + GENERIC_FILE_BATCH_SIZE else |answers|;
        var i := offset;
        while i < end
          invariant offset <= i <= end && Done(old(files), old(sent), answers, i)
        {
          SaveFile(i, answers[i]);
          i := i + 1;
        }
        more := end - offset == GENERIC_FILE_BATCH_SIZE;
        offset := end;
      }
    }
  }
}
