/** What reaches Pharos about an ingested file (models/generic_file.go,
    workers/apt_recorder.go): the facts that its events and checksums state, that an attempt
    sends whatever it builds, and which children get the ids of the answer. */
module RecordedFacts {
  import opened Collections
  import opened IngestEvents
  import opened Recorder

  // ----- what the events state -----

  datatype Statement = Statement(kind: Kind, storageDetail: bool, outcome: string)

  function StatementsOf(events: seq<Event>): seq<Statement> {
    if |events| == 0 then []
    else [Statement(events[0].kind, events[0].storageDetail, events[0].outcomeDetail)] + StatementsOf(events[1..])
  }

  function When<T>(c: bool, x: T): seq<T> {
    if c then [x] else []
  }

  /** The facts about a file, in the order in which they are stated. */
  function FactsOf(info: Info): seq<Statement> {
    [Statement(FixityCheck, false, "md5:" + info.md5)]
    + ([Statement(DigestCalculation, false, "sha256:" + info.sha256)]
       + (When(!info.previousVersion, Statement(IdentifierAssignment, false, info.identifier))
          + PlacesOf(info)))
  }

  /** Where the file is stored, and that it is ingested. */
  function PlacesOf(info: Info): seq<Statement> {
    When(info.needsSave, Statement(IdentifierAssignment, true, info.storageUrl))
    + (When(info.standard, Statement(Replication, false, info.replicationUrl))
       + [Statement(Ingestion, false, "md5:" + info.md5)])
  }

  /** Everything needed to state them is known. */
  predicate FactsKnown(info: Info) {
    && info.verifiedAt && |info.md5| == 32 && info.sha256GeneratedAt && (|info.sha256| == 32 || |info.sha256| == 64)
    && (!info.previousVersion ==> info.uuidGeneratedAt && info.identifier != "")
    && (info.needsSave ==> info.storageUrl != "")
    && (info.standard ==> info.replicatedAt && info.replicationUrl != "")
    && info.storedAt && info.uuidOk
  }

  lemma StatementsAppend(a: seq<Event>, b: seq<Event>)
    ensures StatementsOf(a + b) == StatementsOf(a) + StatementsOf(b)
    decreases |a|
  {
    if |a| == 0 {
      assert a + b == b;
    } else {
      assert (a + b)[1..] == a[1..] + b;
      StatementsAppend(a[1..], b);
    }
  }

  lemma ExpectedStep(info: Info, slots: seq<Slot>, uuids: seq<string>)
    requires |uuids| == |slots| > 0
    ensures StatementsOf(Expected(info, slots, uuids)) ==
            (if Needed(info, slots[0]) then StatementsOf([NewEvent(info, slots[0], uuids[0])]) else []) +
            StatementsOf(Expected(info, slots[1..], uuids[1..]))
  {
    if Needed(info, slots[0]) {
      StatementsAppend([NewEvent(info, slots[0], uuids[0])], Expected(info, slots[1..], uuids[1..]));
    } else {
      Nothing(Expected(info, slots[1..], uuids[1..]));
    }
  }

  lemma OneStatement(e: Event)
    ensures StatementsOf([e]) == [Statement(e.kind, e.storageDetail, e.outcomeDetail)]
  {
    assert [e][1..] == [];
  }

  lemma StatementFor(info: Info, slots: seq<Slot>, uuids: seq<string>)
    requires |uuids| == |slots| > 0
    ensures var e := NewEvent(info, slots[0], uuids[0]);
            StatementsOf(Expected(info, slots, uuids)) ==
            When(Needed(info, slots[0]), Statement(e.kind, e.storageDetail, e.outcomeDetail)) +
            StatementsOf(Expected(info, slots[1..], uuids[1..]))
  {
    ExpectedStep(info, slots, uuids);
    OneStatement(NewEvent(info, slots[0], uuids[0]));
  }

  lemma PlacesAreStated(info: Info, uuids: seq<string>)
    requires |uuids| == 3
    ensures StatementsOf(Expected(info, [AStorageUrl, AReplication, AnIngestion], uuids)) == PlacesOf(info)
  {
    var slots := [AStorageUrl, AReplication, AnIngestion];
    StatementFor(info, slots, uuids);
    assert slots[1..] == [AReplication, AnIngestion] && [AReplication, AnIngestion][1..] == [AnIngestion];
    StatementFor(info, [AReplication, AnIngestion], uuids[1..]);
    StatementFor(info, [AnIngestion], uuids[1..][1..]);
    assert Expected(info, [AnIngestion][1..], uuids[1..][1..][1..]) == [];
    Nothing([Statement(Ingestion, false, "md5:" + info.md5)]);
  }

  lemma SlotsAre()
    ensures SLOTS[1..] == [ADigest, AFileIdentifier, AStorageUrl, AReplication, AnIngestion]
    ensures SLOTS[1..][1..] == [AFileIdentifier, AStorageUrl, AReplication, AnIngestion]
    ensures SLOTS[1..][1..][1..] == [AStorageUrl, AReplication, AnIngestion]
  {
  }

  lemma ExpectedStates(info: Info, uuids: Uuids)
    ensures StatementsOf(Expected(info, SLOTS, uuids)) == FactsOf(info)
  {
    SlotsAre();
    StatementFor(info, SLOTS, uuids);
    StatementFor(info, SLOTS[1..], uuids[1..]);
    StatementFor(info, SLOTS[1..][1..], uuids[1..][1..]);
    PlacesAreStated(info, uuids[1..][1..][1..]);
  }

  lemma KnownIff(info: Info)
    ensures (forall k :: 0 <= k < |SLOTS| && Needed(info, SLOTS[k]) ==> CanBuild(info, SLOTS[k])) <==> FactsKnown(info)
  {
    assert SLOTS[0] == AFixityCheck && SLOTS[1] == ADigest && SLOTS[2] == AFileIdentifier;
    assert SLOTS[3] == AStorageUrl && SLOTS[4] == AReplication && SLOTS[5] == AnIngestion;
  }

  /** Building on a file without ingest events succeeds exactly when all facts are known, and
      then the new events state exactly the facts about the file. */
  lemma FirstBuildStates(info: Info, events: seq<Event>, uuids: Uuids)
    requires Distinguishable(info) && Consistent(events) && NoneOf(events, SLOTS)
    ensures var b := Build(info, events, uuids);
            (b.ok <==> FactsKnown(info)) && (b.ok ==> StatementsOf(b.events[|events|..]) == FactsOf(info))
  {
    FirstBuild(info, events, uuids);
    KnownIff(info);
    ExpectedStates(info, uuids);
    Halves(events, Expected(info, SLOTS, uuids));
  }

  // ----- what the checksums state -----

  lemma HasAfter(checksums: seq<Checksum>, c: Checksum, algorithm: Algorithm)
    requires c.dated
    ensures HasAlgorithm(checksums + [c], algorithm) <==> HasAlgorithm(checksums, algorithm) || c.algorithm == algorithm
  {
    var r := checksums + [c];
    assert r[|checksums|] == c && forall k :: 0 <= k < |checksums| ==> r[k] == checksums[k];
  }

  /** Each of the two digests is added exactly if there is no dated checksum of its kind yet;
      one that is needed and not known is an error. */
  lemma SumStates(info: Info, checksums: seq<Checksum>)
    ensures var needsMd5, needsSha := !HasAlgorithm(checksums, Md5), !HasAlgorithm(checksums, Sha256);
            var r := Sum(info, checksums);
            && (r.ok <==> (needsMd5 ==> |info.md5| == 32 && info.md5GeneratedAt) &&
                          (needsSha ==> |info.sha256| == 64 && info.sha256GeneratedAt))
            && (r.ok ==> r.checksums == checksums + When(needsMd5, Checksum(Md5, info.md5, true, 0))
                                        + When(needsSha, Checksum(Sha256, info.sha256, true, 0)))
  {
    var c := Checksum(Md5, info.md5, true, 0);
    HasAfter(checksums, c, Sha256);
    Nothing(checksums);
    Nothing(checksums + [c]);
  }

  // ----- what is sent -----

  /** `some` are the elements of `all` at these places, in order. */
  predicate PickedAt<T(==)>(all: seq<T>, some: seq<T>, at: seq<nat>) {
    && |at| == |some| && (forall k :: 0 <= k < |at| ==> at[k] < |all| && some[k] == all[at[k]])
    && forall j, k :: 0 <= j < k < |at| ==> at[j] < at[k]
  }

  lemma PickedMore<T>(all: seq<T>, some: seq<T>, at: seq<nat>, x: T)
    requires PickedAt(all, some, at)
    ensures PickedAt(all + [x], some, at) && PickedAt(all + [x], some + [x], at + [|all|])
    ensures forall i :: i in at + [|all|] <==> i in at || i == |all|
    ensures |all| !in at
  {
    assert (at + [|all|])[|at|] == |all|;
  }

  lemma {:induction false} UnsavedEventsAt(events: seq<Event>) returns (at: seq<nat>)
    ensures PickedAt(events, UnsavedEvents(events), at)
    ensures forall i: nat :: i < |events| ==> (i in at <==> events[i].id == 0)
    decreases |events|
  {
    at := [];
    if |events| > 0 {
      var n := |events| - 1;
      var before := UnsavedEventsAt(events[..n]);
      PickedMore(events[..n], UnsavedEvents(events[..n]), before, events[n]);
      at := if events[n].id == 0 then before + [n] else before;
      PrefixStep(events, n);
      Whole(events);
    }
  }

  lemma {:induction false} UnsavedChecksumsAt(checksums: seq<Checksum>) returns (at: seq<nat>)
    ensures PickedAt(checksums, UnsavedChecksums(checksums), at)
    ensures forall i: nat :: i < |checksums| ==> (i in at <==> checksums[i].id == 0)
    decreases |checksums|
  {
    at := [];
    if |checksums| > 0 {
      var n := |checksums| - 1;
      var before := UnsavedChecksumsAt(checksums[..n]);
      PickedMore(checksums[..n], UnsavedChecksums(checksums[..n]), before, checksums[n]);
      at := if checksums[n].id == 0 then before + [n] else before;
      PrefixStep(checksums, n);
      Whole(checksums);
    }
  }

  /** An update of a known file sends exactly the children without an id, each once and in
      order. */
  lemma UpdateSendsUnsaved(f: File, a: Answer) returns (events: seq<nat>, checksums: seq<nat>)
    requires f.info.needsSave && f.id != 0
    ensures var p, sent := Prepared(f, a.uuids), Attempt(f, a).sent;
            && |sent| == 1 && sent[0].Updated?
            && PickedAt(p.events, sent[0].events, events) && PickedAt(p.checksums, sent[0].checksums, checksums)
            && (forall i: nat :: i < |p.events| ==> (i in events <==> p.events[i].id == 0))
            && (forall i: nat :: i < |p.checksums| ==> (i in checksums <==> p.checksums[i].id == 0))
  {
    var p := Prepared(f, a.uuids);
    events := UnsavedEventsAt(p.events);
    checksums := UnsavedChecksumsAt(p.checksums);
  }

  lemma {:induction false} BuiltWithoutIds(info: Info, events: seq<Event>, slots: seq<Slot>, uuids: seq<string>, k: nat)
    requires |uuids| == |slots| && |events| <= k < |BuildAll(info, events, slots, uuids).events|
    ensures BuildAll(info, events, slots, uuids).events[k].id == 0
    decreases |slots|
  {
    if |slots| > 0 {
      var b := BuildOne(info, events, slots[0], uuids[0]);
      if b.ok && k >= |b.events| {
        BuiltWithoutIds(info, b.events, slots[1..], uuids[1..], k);
      }
    }
  }

  lemma SummedWithoutIds(info: Info, checksums: seq<Checksum>, k: nat)
    requires |checksums| <= k < |Sum(info, checksums).checksums|
    ensures Sum(info, checksums).checksums[k].id == 0
  {
  }

  lemma PickedHas<T>(all: seq<T>, some: seq<T>, at: seq<nat>, i: nat)
    requires PickedAt(all, some, at) && i in at
    ensures i < |all| && all[i] in some
  {
    var k :| 0 <= k < |at| && at[k] == i;
    assert some[k] == all[i];
  }

  /** Whatever an attempt builds, for a file that Pharos knows or not, it sends. */
  lemma BuiltIsSent(f: File, a: Answer)
    requires f.info.needsSave
    ensures var p, sent := Prepared(f, a.uuids), Attempt(f, a).sent;
            && |sent| == 1 && (sent[0].Created? <==> f.id == 0)
            && (forall k :: |f.events| <= k < |p.events| ==> p.events[k] in sent[0].events)
            && (forall k :: |f.checksums| <= k < |p.checksums| ==> p.checksums[k] in sent[0].checksums)
  {
    var p, sent := Prepared(f, a.uuids), Attempt(f, a).sent;
    if f.id != 0 {
      var events, checksums := UpdateSendsUnsaved(f, a);
      forall k | |f.events| <= k < |p.events| ensures p.events[k] in sent[0].events {
        BuiltWithoutIds(f.info, f.events, SLOTS, a.uuids, k);
        PickedHas(p.events, sent[0].events, events, k);
      }
      forall k | |f.checksums| <= k < |p.checksums| ensures p.checksums[k] in sent[0].checksums {
        SummedWithoutIds(f.info, f.checksums, k);
        PickedHas(p.checksums, sent[0].checksums, checksums, k);
      }
    }
  }

  /** An attempt that could not be stored leaves the record as it was, and a file that needs
      no saving is neither sent nor changed. */
  lemma UnstoredStays(f: File, a: Answer)
    ensures !a.stored || !f.info.needsSave ==> Attempt(f, a).file == f
    ensures !f.info.needsSave <==> Attempt(f, a).sent == []
  {
  }

  // ----- the ids of the answer -----

  /** The last id that the answer gives for a key. */
  function IdFor(ids: seq<Id>, key: string, otherwise: nat): nat
    decreases |ids|
  {
    if |ids| == 0 then otherwise
    else if ids[|ids| - 1].key == key then ids[|ids| - 1].id
    else IdFor(ids[..|ids| - 1], key, otherwise)
  }

  lemma {:induction false} IdForFirst(ids: seq<Id>, key: string, otherwise: nat)
    requires |ids| > 0
    ensures IdFor(ids, key, otherwise) == IdFor(ids[1..], key, if ids[0].key == key then ids[0].id else otherwise)
    decreases |ids|
  {
    if |ids| > 1 {
      var n := |ids| - 1;
      assert ids[1..][|ids[1..]| - 1] == ids[n];
      assert ids[1..][..n - 1] == ids[..n][1..];
      IdForFirst(ids[..n], key, otherwise);
    } else {
      assert ids[1..] == [] && ids[..0] == [];
    }
  }

  predicate DistinctUuids(events: seq<Event>) {
    forall j, k :: 0 <= j < k < |events| ==> events[j].uuid != events[k].uuid
  }

  predicate DistinctDigests(checksums: seq<Checksum>) {
    forall j, k :: 0 <= j < k < |checksums| ==> checksums[j].digest != checksums[k].digest
  }

  /** Every event gets the id that the answer gives for its UUID. */
  lemma {:induction false} EventIds(events: seq<Event>, ids: seq<Id>, k: nat)
    requires DistinctUuids(events) && k < |events|
    ensures SetEventIds(events, ids)[k].id == IdFor(ids, events[k].uuid, events[k].id)
    decreases |ids|
  {
    if |ids| > 0 {
      var next := SetEventId(events, ids[0]);
      var f := FirstEvent(events, ids[0].key);
      assert events[k].uuid == ids[0].key ==> !(f < k) && !(k < f);
      assert forall j :: 0 <= j < |events| ==> next[j].uuid == events[j].uuid;
      EventIds(next, ids[1..], k);
      IdForFirst(ids, events[k].uuid, events[k].id);
    }
  }

  lemma {:induction false} ChecksumIds(checksums: seq<Checksum>, ids: seq<Id>, k: nat)
    requires DistinctDigests(checksums) && k < |checksums|
    ensures SetChecksumIds(checksums, ids)[k].id == IdFor(ids, checksums[k].digest, checksums[k].id)
    decreases |ids|
  {
    if |ids| > 0 {
      var next := SetChecksumId(checksums, ids[0]);
      var f := FirstOfDigest(checksums, ids[0].key);
      assert checksums[k].digest == ids[0].key ==> !(f < k) && !(k < f);
      assert forall j :: 0 <= j < |checksums| ==> next[j].digest == checksums[j].digest;
      ChecksumIds(next, ids[1..], k);
      IdForFirst(ids, checksums[k].digest, checksums[k].id);
    }
  }

  /** The answer gives every child of the file an id. */
  predicate AnswersAll(f: File, s: SavedFile) {
    && s.id != 0
    && (forall k :: 0 <= k < |f.events| ==> IdFor(s.events, f.events[k].uuid, 0) != 0)
    && (forall k :: 0 <= k < |f.checksums| ==> IdFor(s.checksums, f.checksums[k].digest, 0) != 0)
  }

  predicate NothingUnsaved(f: File) {
    && f.id != 0 && (forall k :: 0 <= k < |f.events| ==> f.events[k].id != 0)
    && (forall k :: 0 <= k < |f.checksums| ==> f.checksums[k].id != 0)
  }

  lemma {:induction false} IdForIndifferent(ids: seq<Id>, key: string, a: nat)
    requires IdFor(ids, key, 0) != 0
    ensures IdFor(ids, key, a) == IdFor(ids, key, 0)
    decreases |ids|
  {
    if |ids| > 0 && ids[|ids| - 1].key != key {
      IdForIndifferent(ids[..|ids| - 1], key, a);
    }
  }

  /** A creation that is answered in full and stored leaves no child without an id. */
  lemma AnsweredInFull(f: File, a: Answer)
    requires f.info.needsSave && f.id == 0 && a.stored && |a.saved| == 1
    requires var p := Prepared(f, a.uuids);
             DistinctUuids(p.events) && DistinctDigests(p.checksums) && AnswersAll(p, a.saved[0])
    ensures NothingUnsaved(Attempt(f, a).file)
  {
    var p, s := Prepared(f, a.uuids), a.saved[0];
    var r := Merge(p, s);
    assert a.saved[1..] == [] && MergeAll(r, []) == r;
    forall k | 0 <= k < |r.events| ensures r.events[k].id != 0 {
      EventIds(p.events, s.events, k);
      IdForIndifferent(s.events, p.events[k].uuid, p.events[k].id);
    }
    forall k | 0 <= k < |r.checksums| ensures r.checksums[k].id != 0 {
      ChecksumIds(p.checksums, s.checksums, k);
      IdForIndifferent(s.checksums, p.checksums[k].digest, p.checksums[k].id);
    }
  }

  lemma {:induction false} NoUnsavedEvents(events: seq<Event>)
    requires forall k :: 0 <= k < |events| ==> events[k].id != 0
    ensures UnsavedEvents(events) == []
    decreases |events|
  {
    if |events| > 0 {
      NoUnsavedEvents(events[..|events| - 1]);
    }
  }

  lemma {:induction false} NoUnsavedChecksums(checksums: seq<Checksum>)
    requires forall k :: 0 <= k < |checksums| ==> checksums[k].id != 0
    ensures UnsavedChecksums(checksums) == []
    decreases |checksums|
  {
    if |checksums| > 0 {
      NoUnsavedChecksums(checksums[..|checksums| - 1]);
    }
  }

  /** A file of which nothing is left to build or to save is named in every later attempt, but
      no child of it is sent again. */
  lemma RecordedChildrenAreNotResent(h: History, answers: seq<Answer>)
    requires h.file.info.needsSave && Complete(h.file) && NothingUnsaved(h.file)
    ensures Run(h, answers) == History(h.file, h.log + Repeated(Updated([], []), |answers|))
  {
    CompleteChildrenAreResent(h, answers);
    NoUnsavedEvents(h.file.events);
    NoUnsavedChecksums(h.file.checksums);
  }

  // ----- a file recorded in one attempt -----

  lemma SameSkips(info: Info, before: seq<Event>, after: seq<Event>, slot: Slot)
    requires SameEvents(before, after)
    ensures Skips(info, before, slot) == Skips(info, after, slot)
  {
    assert forall k :: 0 <= k < |before| ==>
        after[k].kind == before[k].kind && after[k].storageDetail == before[k].storageDetail &&
        after[k].outcomeDetail == before[k].outcomeDetail;
  }

  lemma {:induction false} NothingToBuild(info: Info, before: seq<Event>, after: seq<Event>, slots: seq<Slot>,
                                          uuids: seq<string>)
    requires |uuids| == |slots| && SameEvents(before, after) && BuildAll(info, before, slots, uuids).events == before
    ensures BuildAll(info, after, slots, uuids).events == after
    decreases |slots|
  {
    if |slots| > 0 {
      SameSkips(info, before, after, slots[0]);
      var b := BuildOne(info, before, slots[0], uuids[0]);
      if b.ok {
        assert b.events <= before;
        NothingToBuild(info, before, after, slots[1..], uuids[1..]);
      }
    }
  }

  lemma NothingToSum(info: Info, before: seq<Checksum>, after: seq<Checksum>)
    requires SameChecksums(before, after) && Sum(info, before).checksums == before
    ensures Sum(info, after).checksums == after
  {
    assert forall k :: 0 <= k < |before| ==>
        after[k].algorithm == before[k].algorithm && after[k].dated == before[k].dated;
    assert HasAlgorithm(before, Md5) == HasAlgorithm(after, Md5);
    assert HasAlgorithm(before, Sha256) == HasAlgorithm(after, Sha256);
  }

  /** Ids make no difference to what is left to build. */
  lemma CompleteWithIds(f: File, r: File)
    requires Complete(f) && r.info == f.info
    requires SameEvents(f.events, r.events) && SameChecksums(f.checksums, r.checksums)
    ensures Complete(r)
  {
    forall uuids: Uuids ensures Prepared(r, uuids) == r {
      assert Prepared(f, uuids) == f;
      NothingToBuild(f.info, f.events, r.events, SLOTS, uuids);
      NothingToSum(f.info, f.checksums, r.checksums);
    }
  }

  /** A file that is built without an error, created, answered in full and stored is created
      with all its children, and no later attempt sends any child of it again. */
  lemma RecordedInOneAttempt(h: History, a: Answer, answers: seq<Answer>)
    requires h.file.info.needsSave && h.file.id == 0 && IsUrl(h.file.info.storageUrl) && a.stored && |a.saved| == 1
    requires Build(h.file.info, h.file.events, a.uuids).ok && Sum(h.file.info, h.file.checksums).ok
    requires var p := Prepared(h.file, a.uuids);
             DistinctUuids(p.events) && DistinctDigests(p.checksums) && AnswersAll(p, a.saved[0])
    ensures var p := Prepared(h.file, a.uuids);
            Run(h, [a] + answers).log ==
            h.log + [Created(p.events, p.checksums)] + Repeated(Updated([], []), |answers|)
  {
    var p, o := Prepared(h.file, a.uuids), Attempt(h.file, a);
    AnsweredInFull(h.file, a);
    PreparedIsComplete(h.file, a.uuids);
    CompleteWithIds(p, o.file);
    Halves([a], answers);
    RecordedChildrenAreNotResent(History(o.file, h.log + o.sent), answers);
  }
}
