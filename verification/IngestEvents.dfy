/** The PREMIS events and checksums of an ingested file (models/generic_file.go,
    models/premis_event.go): built step by step, each only if it is not there yet. */
module IngestEvents {
  import opened Collections

  datatype Kind = FixityCheck | DigestCalculation | IdentifierAssignment | Replication | Ingestion | AnotherKind

  /** `storageDetail` tells whether the detail text starts with "Assigned new storage URL".
      An id of zero means that Pharos has not recorded the event. */
  datatype Event = Event(uuid: string, kind: Kind, storageDetail: bool, outcomeDetail: string, id: nat)

  datatype Algorithm = Md5 | Sha256 | AnotherAlgorithm

  /** A checksum without a time, one that is not `dated`, is never found by its algorithm. */
  datatype Checksum = Checksum(algorithm: Algorithm, digest: string, dated: bool, id: nat)

  /** What is known of the file from validation and storage. Times are kept as whether they
      are set. */
  datatype Info = Info(
    identifier: string, standard: bool, previousVersion: bool, needsSave: bool,
    md5: string, md5GeneratedAt: bool, sha256: string, sha256GeneratedAt: bool, verifiedAt: bool,
    uuidOk: bool, uuidGeneratedAt: bool, storedAt: bool, storageUrl: string, replicatedAt: bool, replicationUrl: string)

  predicate IsUrl(s: string) {
    "http://" <= s || "https://" <= s
  }

  /** What an event of a file is about. The two identifier assignments differ in their
      detail text. */
  datatype Slot = AFixityCheck | ADigest | AFileIdentifier | AStorageUrl | AReplication | AnIngestion | AnythingElse

  function SlotOf(e: Event): Slot {
    match e.kind
    case FixityCheck => AFixityCheck
    case DigestCalculation => ADigest
    case IdentifierAssignment => if e.storageDetail then AStorageUrl else AFileIdentifier
    case Replication => AReplication
    case Ingestion => AnIngestion
    case AnotherKind => AnythingElse
  }

  // ----- is the event there already? -----

  predicate HasKind(events: seq<Event>, kind: Kind) {
    exists k :: 0 <= k < |events| && events[k].kind == kind
  }

  predicate HasFileIdentifier(events: seq<Event>) {
    exists k :: 0 <= k < |events| && events[k].kind == IdentifierAssignment && !events[k].storageDetail
  }

  /** The storage URL is looked for in the outcome, not in the detail text. */
  predicate HasStorageUrl(events: seq<Event>) {
    exists k :: 0 <= k < |events| && events[k].kind == IdentifierAssignment && IsUrl(events[k].outcomeDetail)
  }

  /** Whether the step for this slot has nothing to do. */
  predicate Skips(info: Info, events: seq<Event>, slot: Slot) {
    match slot
    case AFixityCheck => HasKind(events, FixityCheck)
    case ADigest => HasKind(events, DigestCalculation)
    case AFileIdentifier => HasFileIdentifier(events) || info.previousVersion
    case AStorageUrl => HasStorageUrl(events) || !info.needsSave
    case AReplication => !info.standard || HasKind(events, Replication)
    case AnIngestion => HasKind(events, Ingestion)
    case AnythingElse => true
  }

  /** Whether the facts needed for the event of this slot are there. */
  predicate CanBuild(info: Info, slot: Slot) {
    match slot
    case AFixityCheck => info.verifiedAt && (|info.md5| == 32 || |info.md5| == 64)
    case ADigest => info.sha256GeneratedAt && (|info.sha256| == 32 || |info.sha256| == 64)
    case AFileIdentifier => info.uuidGeneratedAt && info.identifier != ""
    case AStorageUrl => info.storedAt && info.storageUrl != ""
    case AReplication => info.replicatedAt && info.replicationUrl != ""
    case AnIngestion => info.storedAt && |info.md5| == 32 && info.uuidOk
    case AnythingElse => true
  }

  function NewEvent(info: Info, slot: Slot, uuid: string): (e: Event)
    ensures SlotOf(e) == slot && e.uuid == uuid && e.id == 0
  {
    match slot
    case AFixityCheck => Event(uuid, FixityCheck, false, "md5:" + info.md5, 0)
    case ADigest => Event(uuid, DigestCalculation, false, "sha256:" + info.sha256, 0)
    case AFileIdentifier => Event(uuid, IdentifierAssignment, false, info.identifier, 0)
    case AStorageUrl => Event(uuid, IdentifierAssignment, true, info.storageUrl, 0)
    case AReplication => Event(uuid, Replication, false, info.replicationUrl, 0)
    case AnIngestion => Event(uuid, Ingestion, false, "md5:" + info.md5, 0)
    case AnythingElse => Event(uuid, AnotherKind, false, "", 0)
  }

  const SLOTS := [AFixityCheck, ADigest, AFileIdentifier, AStorageUrl, AReplication, AnIngestion]

  datatype Built = Built(events: seq<Event>, ok: bool)

  function BuildOne(info: Info, events: seq<Event>, slot: Slot, uuid: string): Built {
    if Skips(info, events, slot) then Built(events, true)
    else if !CanBuild(info, slot) then Built(events, false)
    else Built(events + [NewEvent(info, slot, uuid)], true)
  }

  /** BuildIngestEvents: the first step that fails ends the building. */
  function BuildAll(info: Info, events: seq<Event>, slots: seq<Slot>, uuids: seq<string>): (b: Built)
    requires |uuids| == |slots|
    ensures events <= b.events
    decreases |slots|
  {
    if |slots| == 0 then Built(events, true)
    else
      var b := BuildOne(info, events, slots[0], uuids[0]);
      if b.ok then BuildAll(info, b.events, slots[1..], uuids[1..]) else b
  }

  type Uuids = u: seq<string> | |u| == 6 witness ["", "", "", "", "", ""]

  function Build(info: Info, events: seq<Event>, uuids: Uuids): (b: Built)
    ensures events <= b.events
  {
    BuildAll(info, events, SLOTS, uuids)
  }

  // ----- one event a slot -----

  predicate AtMostOne(events: seq<Event>) {
    forall i, j :: 0 <= i < j < |events| && SlotOf(events[i]) == SlotOf(events[j]) ==> SlotOf(events[i]) == AnythingElse
  }

  /** The two ways to tell the identifier assignments apart agree. */
  predicate Consistent(events: seq<Event>) {
    forall i :: 0 <= i < |events| && events[i].kind == IdentifierAssignment ==>
      (events[i].storageDetail <==> IsUrl(events[i].outcomeDetail))
  }

  /** Storage URLs are URLs and file identifiers are not. */
  predicate Distinguishable(info: Info) {
    IsUrl(info.storageUrl) && !IsUrl(info.identifier)
  }

  predicate HasSlot(events: seq<Event>, slot: Slot) {
    exists k :: 0 <= k < |events| && SlotOf(events[k]) == slot
  }

  lemma KindIsSlot(events: seq<Event>)
    ensures HasKind(events, FixityCheck) == HasSlot(events, AFixityCheck)
    ensures HasKind(events, DigestCalculation) == HasSlot(events, ADigest)
    ensures HasKind(events, Replication) == HasSlot(events, AReplication)
    ensures HasKind(events, Ingestion) == HasSlot(events, AnIngestion)
    ensures HasFileIdentifier(events) == HasSlot(events, AFileIdentifier)
  {
    forall kind, slot | forall e: Event :: e.kind == kind <==> SlotOf(e) == slot
      ensures HasKind(events, kind) == HasSlot(events, slot)
    {
      assert forall k :: 0 <= k < |events| ==> (events[k].kind == kind <==> SlotOf(events[k]) == slot);
    }
    assert forall k :: 0 <= k < |events| ==>
             (events[k].kind == IdentifierAssignment && !events[k].storageDetail <==>
              SlotOf(events[k]) == AFileIdentifier);
  }

  lemma StorageUrlIsSlot(events: seq<Event>)
    requires Consistent(events)
    ensures HasStorageUrl(events) == HasSlot(events, AStorageUrl)
  {
    assert forall k :: 0 <= k < |events| ==>
             (events[k].kind == IdentifierAssignment && IsUrl(events[k].outcomeDetail) <==>
              SlotOf(events[k]) == AStorageUrl);
  }

  lemma FilledSlotIsSkipped(info: Info, events: seq<Event>, slot: Slot)
    requires Consistent(events) && HasSlot(events, slot)
    ensures Skips(info, events, slot)
  {
    KindIsSlot(events);
    StorageUrlIsSlot(events);
  }

  lemma BuildOneKeeps(info: Info, events: seq<Event>, slot: Slot, uuid: string)
    requires Distinguishable(info) && Consistent(events) && AtMostOne(events)
    ensures var b := BuildOne(info, events, slot, uuid);
            Consistent(b.events) && AtMostOne(b.events) && (b.ok ==> Skips(info, b.events, slot))
  {
    if !Skips(info, events, slot) && CanBuild(info, slot) {
      var e := NewEvent(info, slot, uuid);
      var r := events + [e];
      if HasSlot(events, slot) {
        FilledSlotIsSkipped(info, events, slot);
        assert false;
      }
      assert r[|events|] == e && forall i :: 0 <= i < |events| ==> r[i] == events[i];
      assert AtMostOne(r);
      assert HasSlot(r, slot);
      FilledSlotIsSkipped(info, r, slot);
    }
  }

  lemma SkipsStays(info: Info, before: seq<Event>, after: seq<Event>, slot: Slot)
    requires before <= after && Skips(info, before, slot)
    ensures Skips(info, after, slot)
  {
    assert forall k :: 0 <= k < |before| ==> after[k] == before[k];
  }

  lemma {:induction false} BuildAllKeeps(info: Info, events: seq<Event>, slots: seq<Slot>, uuids: seq<string>)
    requires |uuids| == |slots| && Distinguishable(info) && Consistent(events) && AtMostOne(events)
    ensures var b := BuildAll(info, events, slots, uuids);
            Consistent(b.events) && AtMostOne(b.events) &&
            (b.ok ==> forall k :: 0 <= k < |slots| ==> Skips(info, b.events, slots[k]))
    decreases |slots|
  {
    if |slots| > 0 {
      BuildOneKeeps(info, events, slots[0], uuids[0]);
      var b := BuildOne(info, events, slots[0], uuids[0]);
      if b.ok {
        BuildAllKeeps(info, b.events, slots[1..], uuids[1..]);
        SkipsStays(info, b.events, BuildAll(info, b.events, slots[1..], uuids[1..]).events, slots[0]);
      }
    }
  }

  /** Building, even when it stops half-way, keeps every event there was, in place, and never
      makes a second event about the same thing. */
  lemma BuildKeeps(info: Info, events: seq<Event>, uuids: Uuids)
    requires Distinguishable(info) && Consistent(events) && AtMostOne(events)
    ensures var b := Build(info, events, uuids); events <= b.events && Consistent(b.events) && AtMostOne(b.events)
  {
    BuildAllKeeps(info, events, SLOTS, uuids);
  }

  // ----- building again -----

  lemma {:induction false} AllSkipped(info: Info, events: seq<Event>, slots: seq<Slot>, uuids: seq<string>)
    requires |uuids| == |slots| && forall k :: 0 <= k < |slots| ==> Skips(info, events, slots[k])
    ensures BuildAll(info, events, slots, uuids) == Built(events, true)
    decreases |slots|
  {
    if |slots| > 0 {
      AllSkipped(info, events, slots[1..], uuids[1..]);
    }
  }

  /** A successful step is skipped from then on, except that of a storage URL which does not
      look like one. */
  lemma BuiltIsSkipped(info: Info, events: seq<Event>, slot: Slot, uuid: string)
    requires BuildOne(info, events, slot, uuid).ok && (slot == AStorageUrl ==> IsUrl(info.storageUrl))
    ensures Skips(info, BuildOne(info, events, slot, uuid).events, slot)
  {
    if !Skips(info, events, slot) {
      var r := events + [NewEvent(info, slot, uuid)];
      assert r[|events|] == NewEvent(info, slot, uuid);
      KindIsSlot(r);
      assert HasSlot(r, slot);
    }
  }

  /** After a success, a slot is skipped unless it is that of an odd storage URL, and then
      the event can be built once more. */
  lemma {:induction false} AfterSuccess(info: Info, events: seq<Event>, slots: seq<Slot>, uuids: seq<string>, k: nat)
    requires |uuids| == |slots| && k < |slots| && BuildAll(info, events, slots, uuids).ok
    ensures slots[k] != AStorageUrl || IsUrl(info.storageUrl) ==>
              Skips(info, BuildAll(info, events, slots, uuids).events, slots[k])
    ensures Skips(info, BuildAll(info, events, slots, uuids).events, slots[k]) || CanBuild(info, slots[k])
    decreases |slots|
  {
    var b := BuildOne(info, events, slots[0], uuids[0]);
    var r := BuildAll(info, b.events, slots[1..], uuids[1..]).events;
    if k > 0 {
      AfterSuccess(info, b.events, slots[1..], uuids[1..], k - 1);
    } else {
      if slots[0] != AStorageUrl || IsUrl(info.storageUrl) {
        BuiltIsSkipped(info, events, slots[0], uuids[0]);
        SkipsStays(info, b.events, r, slots[0]);
      }
      if Skips(info, events, slots[0]) {
        SkipsStays(info, events, r, slots[0]);
      }
    }
  }

  lemma {:induction false} GrowsAt(info: Info, events: seq<Event>, slots: seq<Slot>, uuids: seq<string>, k: nat)
    requires |uuids| == |slots| && k < |slots| && !Skips(info, events, slots[k]) && CanBuild(info, slots[k])
    requires forall j :: 0 <= j < k ==> Skips(info, events, slots[j])
    ensures |BuildAll(info, events, slots, uuids).events| > |events|
    decreases |slots|
  {
    if k > 0 {
      GrowsAt(info, events, slots[1..], uuids[1..], k - 1);
    }
  }

  /** The events already name a URL, or those to be built will: the file's identifier counts
      if it looks like one. */
  predicate NamesUrl(info: Info, events: seq<Event>) {
    || HasStorageUrl(events) || IsUrl(info.storageUrl)
    || (IsUrl(info.identifier) && !info.previousVersion && !HasFileIdentifier(events))
  }

  lemma {:induction false} UrlComesFrom(info: Info, events: seq<Event>, slots: seq<Slot>, uuids: seq<string>)
    requires |uuids| == |slots| && HasStorageUrl(BuildAll(info, events, slots, uuids).events)
    ensures NamesUrl(info, events)
    decreases |slots|
  {
    if |slots| > 0 {
      var b := BuildOne(info, events, slots[0], uuids[0]);
      assert forall i :: 0 <= i < |events| ==> b.events[i] == events[i];
      if b.ok {
        UrlComesFrom(info, b.events, slots[1..], uuids[1..]);
      }
    }
  }

  lemma {:induction false} IdentifierNamesUrl(info: Info, events: seq<Event>, slots: seq<Slot>, uuids: seq<string>)
    requires |uuids| == |slots| && AFileIdentifier in slots && BuildAll(info, events, slots, uuids).ok
    requires IsUrl(info.identifier) && !info.previousVersion && !HasFileIdentifier(events)
    ensures HasStorageUrl(BuildAll(info, events, slots, uuids).events)
    decreases |slots|
  {
    var b := BuildOne(info, events, slots[0], uuids[0]);
    var r := BuildAll(info, b.events, slots[1..], uuids[1..]).events;
    if slots[0] == AFileIdentifier {
      assert r[|events|] == b.events[|events|] == NewEvent(info, AFileIdentifier, uuids[0]);
    } else {
      assert forall i :: 0 <= i < |events| ==> b.events[i] == events[i];
      assert !HasFileIdentifier(b.events);
      IdentifierNamesUrl(info, b.events, slots[1..], uuids[1..]);
    }
  }

  /** Exactly when is building idempotent? After a success, building again adds nothing if
      and only if the file needs no saving or some identifier assignment names a URL. */
  lemma IdempotentIff(info: Info, events: seq<Event>, uuids: Uuids, again: Uuids)
    requires Build(info, events, uuids).ok
    ensures var r := Build(info, events, uuids).events;
            Build(info, r, again) == Built(r, true) <==> (info.needsSave ==> NamesUrl(info, events))
  {
    var r := Build(info, events, uuids).events;
    assert SLOTS[3] == AStorageUrl && SLOTS[2] == AFileIdentifier;
    forall k | 0 <= k < |SLOTS| && k != 3 ensures Skips(info, r, SLOTS[k]) {
      AfterSuccess(info, events, SLOTS, uuids, k);
    }
    AfterSuccess(info, events, SLOTS, uuids, 3);
    if !Skips(info, r, AStorageUrl) {
      GrowsAt(info, r, SLOTS, again, 3);
      if HasStorageUrl(events) {
        SkipsStays(info, events, r, AStorageUrl);
      }
      if IsUrl(info.identifier) && !info.previousVersion && !HasFileIdentifier(events) {
        IdentifierNamesUrl(info, events, SLOTS, uuids);
      }
    } else {
      AllSkipped(info, r, SLOTS, again);
      if info.needsSave {
        UrlComesFrom(info, events, SLOTS, uuids);
      }
    }
  }

  lemma {:induction false} BuildsOnlyAt(info: Info, events: seq<Event>, slots: seq<Slot>, uuids: seq<string>, k: nat)
    requires |uuids| == |slots| && k < |slots| && !Skips(info, events, slots[k]) && CanBuild(info, slots[k])
    requires forall j :: 0 <= j < |slots| && j != k ==> Skips(info, events, slots[j])
    ensures BuildAll(info, events, slots, uuids) == Built(events + [NewEvent(info, slots[k], uuids[k])], true)
    decreases |slots|
  {
    if k > 0 {
      BuildsOnlyAt(info, events, slots[1..], uuids[1..], k - 1);
    } else {
      var r := events + [NewEvent(info, slots[0], uuids[0])];
      forall j | 0 <= j < |slots[1..]| ensures Skips(info, r, slots[1..][j]) {
        SkipsStays(info, events, r, slots[j + 1]);
      }
      AllSkipped(info, r, slots[1..], uuids[1..]);
    }
  }

  /** Several calls of BuildIngestEvents, up to the first that fails. */
  function BuildTimes(info: Info, events: seq<Event>, calls: seq<Uuids>): Built
    decreases |calls|
  {
    if |calls| == 0 then Built(events, true)
    else
      var b := Build(info, events, calls[0]);
      if b.ok then BuildTimes(info, b.events, calls[1..]) else b
  }

  function StorageUrlEvents(info: Info, calls: seq<Uuids>): (r: seq<Event>)
    ensures |r| == |calls| &&
            forall k :: 0 <= k < |r| ==> SlotOf(r[k]) == AStorageUrl && r[k].outcomeDetail == info.storageUrl
    decreases |calls|
  {
    if |calls| == 0 then [] else [NewEvent(info, AStorageUrl, calls[0][3])] + StorageUrlEvents(info, calls[1..])
  }

  lemma {:induction false} OddUrlAddsOneEach(info: Info, events: seq<Event>, calls: seq<Uuids>)
    requires info.needsSave && !IsUrl(info.storageUrl) && !HasStorageUrl(events) && CanBuild(info, AStorageUrl)
    requires forall j :: 0 <= j < |SLOTS| && j != 3 ==> Skips(info, events, SLOTS[j])
    ensures BuildTimes(info, events, calls) == Built(events + StorageUrlEvents(info, calls), true)
    decreases |calls|
  {
    if |calls| == 0 {
      Nothing(events);
    } else {
      assert SLOTS[3] == AStorageUrl;
      BuildsOnlyAt(info, events, SLOTS, calls[0], 3);
      var e := NewEvent(info, AStorageUrl, calls[0][3]);
      var r := events + [e];
      assert !HasStorageUrl(r) by {
        assert forall k :: 0 <= k < |r| ==> r[k] == if k < |events| then events[k] else e;
      }
      forall j | 0 <= j < |SLOTS| && j != 3 ensures Skips(info, r, SLOTS[j]) {
        SkipsStays(info, events, r, SLOTS[j]);
      }
      OddUrlAddsOneEach(info, r, calls[1..]);
      Assoc(events, [e], StorageUrlEvents(info, calls[1..]));
    }
  }

  /** A storage URL without an http or https scheme, on a file with a plain identifier: after
      a first success every further call succeeds too, and adds one more event that assigns
      the same URL. */
  lemma OddUrlRepeats(info: Info, events: seq<Event>, uuids: Uuids, calls: seq<Uuids>)
    requires Build(info, events, uuids).ok && info.needsSave
    requires !IsUrl(info.storageUrl) && !IsUrl(info.identifier) && !HasStorageUrl(events)
    ensures var r := Build(info, events, uuids).events;
            BuildTimes(info, r, calls) == Built(r + StorageUrlEvents(info, calls), true)
  {
    var r := Build(info, events, uuids).events;
    assert SLOTS[3] == AStorageUrl;
    forall k | 0 <= k < |SLOTS| ensures k != 3 ==> Skips(info, r, SLOTS[k]) {
      AfterSuccess(info, events, SLOTS, uuids, k);
    }
    AfterSuccess(info, events, SLOTS, uuids, 3);
    if HasStorageUrl(r) {
      UrlComesFrom(info, events, SLOTS, uuids);
      assert false;
    }
    OddUrlAddsOneEach(info, r, calls);
  }

  /** A file with an http or https storage URL is built once: after a success, building again
      adds nothing. */
  lemma PlainUrlIsBuiltOnce(info: Info, events: seq<Event>, uuids: Uuids, again: Uuids, rest: string)
    requires info.storageUrl == "http://" + rest || info.storageUrl == "https://" + rest
    requires Build(info, events, uuids).ok
    ensures Build(info, Build(info, events, uuids).events, again) == Build(info, events, uuids)
  {
    IdempotentIff(info, events, uuids, again);
  }

  // ----- the first time -----

  /** Whether a file of this kind has an event of this slot at all. */
  predicate Needed(info: Info, slot: Slot) {
    match slot
    case AFileIdentifier => !info.previousVersion
    case AStorageUrl => info.needsSave
    case AReplication => info.standard
    case AnythingElse => false
    case _ => true
  }

  function Expected(info: Info, slots: seq<Slot>, uuids: seq<string>): seq<Event>
    requires |uuids| == |slots|
    decreases |slots|
  {
    if |slots| == 0 then []
    else
      (if Needed(info, slots[0]) then [NewEvent(info, slots[0], uuids[0])] else []) +
      Expected(info, slots[1..], uuids[1..])
  }

  lemma EmptySlotSkipped(info: Info, events: seq<Event>, slot: Slot)
    requires Consistent(events) && !HasSlot(events, slot)
    ensures Skips(info, events, slot) <==> !Needed(info, slot)
  {
    KindIsSlot(events);
    StorageUrlIsSlot(events);
  }

  predicate NoneOf(events: seq<Event>, slots: seq<Slot>) {
    forall k :: 0 <= k < |slots| ==> !HasSlot(events, slots[k])
  }

  lemma NoneOfAfter(info: Info, events: seq<Event>, slots: seq<Slot>, uuid: string)
    requires |slots| > 0 && NoneOf(events, slots) && slots[0] !in slots[1..] && Distinguishable(info) &&
             Consistent(events)
    ensures var r := events + [NewEvent(info, slots[0], uuid)]; NoneOf(r, slots[1..]) && Consistent(r)
  {
    var r := events + [NewEvent(info, slots[0], uuid)];
    forall k | 0 <= k < |slots[1..]| ensures !HasSlot(r, slots[1..][k]) {
      assert slots[1..][k] == slots[k + 1] && !HasSlot(events, slots[k + 1]);
      assert forall j :: 0 <= j < |r| ==> SlotOf(r[j]) != slots[k + 1];
    }
  }

  lemma {:induction false} BuildsExpected(info: Info, events: seq<Event>, slots: seq<Slot>, uuids: seq<string>)
    requires |uuids| == |slots| && Distinguishable(info) && Consistent(events) && NoneOf(events, slots)
    requires forall i, j :: 0 <= i < j < |slots| ==> slots[i] != slots[j]
    ensures BuildAll(info, events, slots, uuids).ok <==>
            forall k :: 0 <= k < |slots| && Needed(info, slots[k]) ==> CanBuild(info, slots[k])
    ensures BuildAll(info, events, slots, uuids).ok ==>
              BuildAll(info, events, slots, uuids).events == events + Expected(info, slots, uuids)
    decreases |slots|
  {
    if |slots| == 0 {
      Nothing(events);
    } else {
      EmptySlotSkipped(info, events, slots[0]);
      var b := BuildOne(info, events, slots[0], uuids[0]);
      if Needed(info, slots[0]) && CanBuild(info, slots[0]) {
        NoneOfAfter(info, events, slots, uuids[0]);
        Assoc(events, [NewEvent(info, slots[0], uuids[0])], Expected(info, slots[1..], uuids[1..]));
      } else {
        Nothing(Expected(info, slots[1..], uuids[1..]));
      }
      if b.ok {
        BuildsExpected(info, b.events, slots[1..], uuids[1..]);
      }
      assert forall k :: 0 < k < |slots| ==> slots[k] == slots[1..][k - 1];
    }
  }

  /** On a file without ingest events, building succeeds if and only if the facts for every
      needed event are there, and then appends exactly the needed events in order, each with
      its own UUID. */
  lemma FirstBuild(info: Info, events: seq<Event>, uuids: Uuids)
    requires Distinguishable(info) && Consistent(events) && NoneOf(events, SLOTS)
    ensures Build(info, events, uuids).ok <==>
            forall k :: 0 <= k < |SLOTS| && Needed(info, SLOTS[k]) ==> CanBuild(info, SLOTS[k])
    ensures Build(info, events, uuids).ok ==> Build(info, events, uuids).events == events + Expected(info, SLOTS, uuids)
  {
    BuildsExpected(info, events, SLOTS, uuids);
  }

  // ----- checksums -----

  predicate HasAlgorithm(checksums: seq<Checksum>, algorithm: Algorithm) {
    exists k :: 0 <= k < |checksums| && checksums[k].algorithm == algorithm && checksums[k].dated
  }

  datatype Summed = Summed(checksums: seq<Checksum>, ok: bool)

  function SumOne(checksums: seq<Checksum>, algorithm: Algorithm, digest: string, length: nat,
                  generatedAt: bool): (r: Summed)
    ensures checksums <= r.checksums && (r.ok ==> HasAlgorithm(r.checksums, algorithm))
  {
    if HasAlgorithm(checksums, algorithm) then Summed(checksums, true)
    else if |digest| != length || !generatedAt then Summed(checksums, false)
    else
      var r := checksums + [Checksum(algorithm, digest, true, 0)];
      assert r[|checksums|].algorithm == algorithm && r[|checksums|].dated;
      Summed(r, true)
  }

  /** BuildIngestChecksums. */
  function Sum(info: Info, checksums: seq<Checksum>): (r: Summed)
    ensures checksums <= r.checksums
  {
    var first := SumOne(checksums, Md5, info.md5, 32, info.md5GeneratedAt);
    if !first.ok then first else SumOne(first.checksums, Sha256, info.sha256, 64, info.sha256GeneratedAt)
  }

  predicate OnePerAlgorithm(checksums: seq<Checksum>) {
    forall i, j :: 0 <= i < j < |checksums| && checksums[i].dated && checksums[j].dated ==>
      checksums[i].algorithm != checksums[j].algorithm
  }

  /** Summing again after a success adds nothing. */
  lemma SumAgain(info: Info, checksums: seq<Checksum>)
    requires Sum(info, checksums).ok
    ensures Sum(info, Sum(info, checksums).checksums) == Sum(info, checksums)
  {
    var first := SumOne(checksums, Md5, info.md5, 32, info.md5GeneratedAt);
    var k :| 0 <= k < |first.checksums| && first.checksums[k].algorithm == Md5 && first.checksums[k].dated;
    assert Sum(info, checksums).checksums[k] == first.checksums[k];
  }

  /** Checksums are kept, at most one dated one an algorithm, and summing again after a success adds
      nothing. */
  lemma SumKeeps(info: Info, checksums: seq<Checksum>)
    requires OnePerAlgorithm(checksums)
    ensures var r := Sum(info, checksums); OnePerAlgorithm(r.checksums) && (r.ok ==> Sum(info, r.checksums) == r)
  {
    if Sum(info, checksums).ok {
      SumAgain(info, checksums);
    }
  }

  // ----- in place -----

  class GenericFile {
    const info: Info
    var events: seq<Event>
    var checksums: seq<Checksum>

    constructor (info: Info, events: seq<Event>, checksums: seq<Checksum>)
      ensures this.info == info && this.events == events && this.checksums == checksums
    {
      this.info, this.events, this.checksums := info, events, checksums;
    }

    /** FindEventsByType, of which the callers use whether there are any. */
    method FindByType(kind: Kind) returns (found: bool)
      ensures found == HasKind(events, kind)
    {
      found := false;
      for k := 0 to |events|
        invariant found <==> exists j :: 0 <= j < k && events[j].kind == kind
      {
        if events[k].kind == kind {
          found := true;
        }
      }
    }

    method FindFileIdentifier() returns (found: bool)
      ensures found == HasFileIdentifier(events)
    {
      found := false;
      for k := 0 to |events|
        invariant found <==>
                  exists j :: 0 <= j < k && events[j].kind == IdentifierAssignment && !events[j].storageDetail
      {
        if events[k].kind == IdentifierAssignment && !events[k].storageDetail {
          found := true;
        }
      }
    }

    method FindStorageUrl() returns (found: bool)
      ensures found == HasStorageUrl(events)
    {
      found := false;
      for k := 0 to |events|
        invariant found <==>
                  exists j :: 0 <= j < k && events[j].kind == IdentifierAssignment && IsUrl(events[j].outcomeDetail)
      {
        if events[k].kind == IdentifierAssignment && IsUrl(events[k].outcomeDetail) {
          found := true;
        }
      }
    }

    method BuildEvent(slot: Slot, uuid: string) returns (ok: bool)
      modifies this`events
      ensures Built(events, ok) == BuildOne(info, old(events), slot, uuid)
    {
      var found;
      match slot {
        case AFixityCheck => found := FindByType(FixityCheck);
        case ADigest => found := FindByType(DigestCalculation);
        case AFileIdentifier =>
          found := FindFileIdentifier();
          found := found || info.previousVersion;
        case AStorageUrl =>
          found := FindStorageUrl();
          found := found || !info.needsSave;
        case AReplication =>
          found := FindByType(Replication);
          found := found || !info.standard;
        case AnIngestion => found := FindByType(Ingestion);
        case AnythingElse => found := true;
      }
      if found {
        return true;
      }
      if !CanBuild(info, slot) {
        return false;
      }
      events := events + [NewEvent(info, slot, uuid)];
      return true;
    }

    method BuildIngestEvents(uuids: Uuids) returns (ok: bool)
      modifies this`events
      ensures Built(events, ok) == Build(info, old(events), uuids)
    {
      var k := 0;
      while k < |SLOTS|
        invariant k <= |SLOTS| && BuildAll(info, events, SLOTS[k..], uuids[k..]) == Build(info, old(events), uuids)
      {
        SuffixStep(SLOTS, k);
        SuffixStep(uuids, k);
        ok := BuildEvent(SLOTS[k], uuids[k]);
        if !ok {
          return;
        }
        k := k + 1;
      }
      ok := true;
    }
  }
}
