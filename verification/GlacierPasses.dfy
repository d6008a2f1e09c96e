/** What one pass over the files does (workers/apt_glacier_restore_init.go), in terms of the
    records it finds and the answers it gets: which retrieval calls it makes, what it records
    of every file, and what it decides. */
module GlacierPasses {
  import opened Collections
  import opened Options
  import opened WorkSummaries
  import opened Glacier

  /** The record kept of a file, if there is one. */
  function RecordOf(requests: seq<Request>, id: string): (r: Option<Request>)
    ensures r.Some? ==> r.value.id == id
  {
    if Has(requests, id) then Some(requests[Find(requests, id)]) else None
  }

  predicate IsAccepted(r: Option<Request>) {
    r.Some? && r.value.accepted
  }

  predicate IsAvailable(r: Option<Request>) {
    r.Some? && r.value.available
  }

  // ----- one file, in terms of its record and its answer -----

  /** The HEAD gives no answer. */
  predicate Silent(a: Answer) {
    a.head.NoClient? || a.head.HeadFails? || a.head.NoInfo?
  }

  /** The file cannot be handled, since its HEAD is silent or there is no telling where it is. */
  predicate Lost(r: Option<Request>, a: Answer) {
    Silent(a) || (r.None? && !a.details)
  }

  /** A retrieval call is made for exactly these files. */
  predicate Calls(r: Option<Request>, a: Answer) {
    a.head.Dormant? && a.details && !IsAccepted(r)
  }

  predicate CallsAs(r: Option<Request>, a: Answer, accepted: bool) {
    Calls(r, a) && accepted == (a.response == Accepted)
  }

  /** What the pass makes of the file is an error. */
  predicate Errs(r: Option<Request>, a: Answer) {
    Lost(r, a) || (a.head.Dormant? && !a.details) || (Calls(r, a) && a.response == Refused)
  }

  function EventsFor(r: Option<Request>, id: string, a: Answer): seq<Event> {
    if Lost(r, a) then []
    else if a.head.Complete? then [SeenInS3(id)]
    else if Calls(r, a) then [Retrieval(id, a.response == Accepted)]
    else []
  }

  function RecordAfter(r: Option<Request>, id: string, a: Answer): Option<Request> {
    if Lost(r, a) then r
    else if a.head.InProgress? || a.head.Complete? then
      Some(Request(id, true, true, a.head.Complete? || IsAvailable(r)))
    else if Calls(r, a) then Some(Request(id, a.response == Accepted, true, IsAvailable(r)))
    else r
  }

  // ----- records by file -----

  lemma RecordIs(requests: seq<Request>, k: nat)
    requires k < |requests| && forall j :: 0 <= j < k ==> requests[j].id != requests[k].id
    ensures RecordOf(requests, requests[k].id) == Some(requests[k])
  {
    var f := Find(requests, requests[k].id);
    assert !(f < k) && !(k < f);
  }

  lemma NoRecord(requests: seq<Request>, id: string)
    requires forall j :: 0 <= j < |requests| ==> requests[j].id != id
    ensures RecordOf(requests, id) == None
  {
  }

  lemma FindSame(before: seq<Request>, after: seq<Request>, id: string)
    requires |before| == |after| && forall k :: 0 <= k < |before| ==> before[k].id == after[k].id
    ensures Find(before, id) == Find(after, id)
  {
    var f, g := Find(before, id), Find(after, id);
    assert !(f < g) && !(g < f);
  }

  lemma RecordOfWith(requests: seq<Request>, id: string, other: string)
    ensures RecordOf(WithRecord(requests, id), other) ==
            if other == id && !Has(requests, id) then Some(Request(id, false, false, false))
            else RecordOf(requests, other)
  {
    var r := WithRecord(requests, id);
    if !Has(requests, id) {
      var f := Find(requests, other);
      if f < |requests| {
        RecordIs(r, f);
      } else if other == id {
        RecordIs(r, |requests|);
      } else {
        NoRecord(r, other);
      }
    }
  }

  lemma RecordOfUpdate(requests: seq<Request>, id: string, x: Request, other: string)
    requires Has(requests, id) && x.id == id
    ensures RecordOf(requests[Find(requests, id) := x], other) ==
            if other == id then Some(x) else RecordOf(requests, other)
  {
    var r := requests[Find(requests, id) := x];
    FindSame(requests, r, other);
  }

  // ----- one file -----

  lemma CheckIs(s: Job, id: string, a: Answer)
    ensures var c, r := Check(s, id, a), RecordOf(s.requests, id);
            && c.failed == Lost(r, a) && c.needed == (a.head.Dormant? || (Lost(r, a) && !Silent(a)))
            && c.state.log == s.log + (if !Lost(r, a) && a.head.Complete? then [SeenInS3(id)] else [])
            && c.state.summary.HasErrors() == (s.summary.HasErrors() || (Lost(r, a) && !Silent(a)))
  {
    Nothing(s.log);
  }

  lemma CheckRecords(s: Job, id: string, a: Answer, other: string)
    ensures var c, r := Check(s, id, a), RecordOf(s.requests, id);
            RecordOf(c.state.requests, other) ==
            if other != id || Lost(r, a) then RecordOf(s.requests, other)
            else if a.head.Dormant? then
              if r.Some? then r else Some(Request(id, false, false, false))
            else RecordAfter(r, id, a)
  {
    var requests := WithRecord(s.requests, id);
    RecordOfWith(s.requests, id, other);
    RecordOfWith(s.requests, id, id);
    var was := requests[Find(requests, id)];
    RecordOfUpdate(requests, id, Request(id, true, true, was.available || false), other);
    RecordOfUpdate(requests, id, Request(id, true, true, was.available || true), other);
  }

  lemma AskIs(s: Job, id: string, a: Answer)
    ensures var n, r := Ask(s, id, a), RecordOf(s.requests, id);
            && n.log == s.log + (if a.details && !IsAccepted(r) then [Retrieval(id, a.response == Accepted)] else [])
            && n.summary.HasErrors() ==
               (s.summary.HasErrors() || !a.details || (!IsAccepted(r) && a.response == Refused))
  {
    Nothing(s.log);
    RecordOfWith(s.requests, id, id);
  }

  lemma AskRecords(s: Job, id: string, a: Answer, other: string)
    requires Has(s.requests, id) || !a.details
    ensures var n, r := Ask(s, id, a), RecordOf(s.requests, id);
            RecordOf(n.requests, other) ==
            if other == id && a.details && !IsAccepted(r) then
              Some(Request(id, a.response == Accepted, true, IsAvailable(r)))
            else RecordOf(s.requests, other)
  {
    if a.details {
      var was := s.requests[Find(s.requests, id)];
      RecordOfUpdate(s.requests, id, Request(id, a.response == Accepted, true, was.available), other);
    }
  }

  lemma HandleIs(s: Job, id: string, a: Answer, single: bool)
    ensures var h, r := Handle(s, id, a, single), RecordOf(s.requests, id);
            h.log == s.log + EventsFor(r, id, a) && h.summary.HasErrors() == (s.summary.HasErrors() || Errs(r, a))
  {
    var c := Check(s, id, a);
    CheckIs(s, id, a);
    CheckRecords(s, id, a, id);
    var noted: Job := if c.failed then c.state.(summary := c.state.summary.WithError("check failed")) else c.state;
    AskIs(noted, id, a);
    Nothing(s.log);
  }

  lemma HandleRecords(s: Job, id: string, a: Answer, single: bool, other: string)
    ensures var h, r := Handle(s, id, a, single), RecordOf(s.requests, id);
            RecordOf(h.requests, other) == if other == id then RecordAfter(r, id, a) else RecordOf(s.requests, other)
  {
    var c := Check(s, id, a);
    CheckIs(s, id, a);
    CheckRecords(s, id, a, other);
    CheckRecords(s, id, a, id);
    var noted: Job := if c.failed then c.state.(summary := c.state.summary.WithError("check failed")) else c.state;
    if c.needed && (single || !c.failed) {
      AskRecords(noted, id, a, other);
    }
  }

  // ----- all files -----

  predicate Distinct(ids: seq<string>) {
    forall j, k :: 0 <= j < k < |ids| ==> ids[j] != ids[k]
  }

  function EventsOfAll(requests: seq<Request>, ids: seq<string>, answers: seq<Answer>): seq<Event>
    requires |ids| == |answers|
    decreases |ids|
  {
    if |ids| == 0 then []
    else EventsFor(RecordOf(requests, ids[0]), ids[0], answers[0]) + EventsOfAll(requests, ids[1..], answers[1..])
  }

  predicate SomeErrs(requests: seq<Request>, ids: seq<string>, answers: seq<Answer>)
    requires |ids| == |answers|
  {
    exists k :: 0 <= k < |ids| && Errs(RecordOf(requests, ids[k]), answers[k])
  }

  predicate SameFor(before: seq<Request>, after: seq<Request>, ids: seq<string>) {
    forall k :: 0 <= k < |ids| ==> RecordOf(before, ids[k]) == RecordOf(after, ids[k])
  }

  lemma {:induction false} SameEvents(before: seq<Request>, after: seq<Request>, ids: seq<string>, answers: seq<Answer>)
    requires |ids| == |answers| && SameFor(before, after, ids)
    ensures EventsOfAll(before, ids, answers) == EventsOfAll(after, ids, answers)
    ensures SomeErrs(before, ids, answers) == SomeErrs(after, ids, answers)
    decreases |ids|
  {
    if |ids| > 0 {
      SameEvents(before, after, ids[1..], answers[1..]);
    }
  }

  lemma OthersSame(s: Job, ids: seq<string>, a: Answer, single: bool)
    requires |ids| > 0 && Distinct(ids)
    ensures SameFor(s.requests, Handle(s, ids[0], a, single).requests, ids[1..]) && Distinct(ids[1..])
  {
    forall k | 0 <= k < |ids| - 1
      ensures RecordOf(s.requests, ids[1..][k]) == RecordOf(Handle(s, ids[0], a, single).requests, ids[1..][k])
    {
      HandleRecords(s, ids[0], a, single, ids[k + 1]);
    }
  }

  lemma ErrsFirst(requests: seq<Request>, ids: seq<string>, answers: seq<Answer>)
    requires |ids| == |answers| > 0
    ensures SomeErrs(requests, ids, answers) <==>
            Errs(RecordOf(requests, ids[0]), answers[0]) || SomeErrs(requests, ids[1..], answers[1..])
  {
    assert forall k :: 0 < k < |ids| ==> ids[k] == ids[1..][k - 1] && answers[k] == answers[1..][k - 1];
  }

  lemma {:induction false} AllEvents(s: Job, ids: seq<string>, answers: seq<Answer>, single: bool)
    requires |ids| == |answers| && Distinct(ids)
    ensures var r := HandleAll(s, ids, answers, single);
            && r.log == s.log + EventsOfAll(s.requests, ids, answers)
            && r.summary.HasErrors() == (s.summary.HasErrors() || SomeErrs(s.requests, ids, answers))
    decreases |ids|
  {
    if |ids| == 0 {
      Nothing(s.log);
    } else {
      var h := Handle(s, ids[0], answers[0], single);
      HandleIs(s, ids[0], answers[0], single);
      OthersSame(s, ids, answers[0], single);
      SameEvents(s.requests, h.requests, ids[1..], answers[1..]);
      ErrsFirst(s.requests, ids, answers);
      AllEvents(h, ids[1..], answers[1..], single);
      Assoc(s.log, EventsFor(RecordOf(s.requests, ids[0]), ids[0], answers[0]),
            EventsOfAll(s.requests, ids[1..], answers[1..]));
    }
  }

  lemma {:induction false} OthersUntouched(s: Job, ids: seq<string>, answers: seq<Answer>, single: bool, other: string)
    requires |ids| == |answers| && other !in ids
    ensures RecordOf(HandleAll(s, ids, answers, single).requests, other) == RecordOf(s.requests, other)
    decreases |ids|
  {
    if |ids| > 0 {
      HandleRecords(s, ids[0], answers[0], single, other);
      OthersUntouched(Handle(s, ids[0], answers[0], single), ids[1..], answers[1..], single, other);
    }
  }

  lemma {:induction false} RecordsAfter(s: Job, ids: seq<string>, answers: seq<Answer>, single: bool, k: nat)
    requires |ids| == |answers| && Distinct(ids) && k < |ids|
    ensures RecordOf(HandleAll(s, ids, answers, single).requests, ids[k]) ==
            RecordAfter(RecordOf(s.requests, ids[k]), ids[k], answers[k])
    decreases |ids|
  {
    var h := Handle(s, ids[0], answers[0], single);
    HandleRecords(s, ids[0], answers[0], single, ids[k]);
    if k == 0 {
      OthersUntouched(h, ids[1..], answers[1..], single, ids[0]);
    } else {
      RecordsAfter(h, ids[1..], answers[1..], single, k - 1);
    }
  }

  // ----- a pass -----

  /** What a pass over distinct files does, be it for an object or for a single file: the
      retrieval calls it makes and the files it sees in S3, in order; the record of every file
      it names; and that it leaves all others alone. */
  lemma PassIs(w: Kept, p: Pass, single: bool)
    requires Fits(p) && p.ids.Some? && Distinct(p.ids.value)
    ensures var s := RequestRestore(State(w.requests, w.summary, w.log), p, single);
            && s.log == w.log + EventsOfAll(w.requests, p.ids.value, p.answers)
            && s.summary.HasErrors() == SomeErrs(w.requests, p.ids.value, p.answers)
            && (forall k :: 0 <= k < |p.ids.value| ==>
                  RecordOf(s.requests, p.ids.value[k]) ==
                  RecordAfter(RecordOf(w.requests, p.ids.value[k]), p.ids.value[k], p.answers[k]))
            && (forall id :: id !in p.ids.value ==> RecordOf(s.requests, id) == RecordOf(w.requests, id))
  {
    var b, ids := Begin(State(w.requests, w.summary, w.log)), p.ids.value;
    AllEvents(b, ids, p.answers, single);
    forall k | 0 <= k < |ids|
      ensures RecordOf(HandleAll(b, ids, p.answers, single).requests, ids[k]) ==
              RecordAfter(RecordOf(w.requests, ids[k]), ids[k], p.answers[k])
    {
      RecordsAfter(b, ids, p.answers, single, k);
    }
    forall id | id !in ids
      ensures RecordOf(HandleAll(b, ids, p.answers, single).requests, id) == RecordOf(w.requests, id)
    {
      OthersUntouched(b, ids, p.answers, single, id);
    }
  }

  lemma {:induction false} EventOf(requests: seq<Request>, ids: seq<string>, answers: seq<Answer>, k: nat, e: Event)
    requires |ids| == |answers| && k < |ids| && e in EventsFor(RecordOf(requests, ids[k]), ids[k], answers[k])
    ensures e in EventsOfAll(requests, ids, answers)
    decreases |ids|
  {
    if k > 0 {
      EventOf(requests, ids[1..], answers[1..], k - 1, e);
    }
  }

  lemma {:induction false} OnlyCalls(requests: seq<Request>, ids: seq<string>, answers: seq<Answer>, e: Event)
    requires |ids| == |answers| && e in EventsOfAll(requests, ids, answers) && e.Retrieval?
    ensures exists k :: 0 <= k < |ids| && ids[k] == e.id && CallsAs(RecordOf(requests, e.id), answers[k], e.accepted)
    decreases |ids|
  {
    if e !in EventsFor(RecordOf(requests, ids[0]), ids[0], answers[0]) {
      OnlyCalls(requests, ids[1..], answers[1..], e);
      var k :| 0 <= k < |ids[1..]| && ids[1..][k] == e.id &&
        CallsAs(RecordOf(requests, e.id), answers[1..][k], e.accepted);
      assert ids[k + 1] == ids[1..][k] && answers[k + 1] == answers[1..][k];
    }
  }

  lemma CallsIff(requests: seq<Request>, ids: seq<string>, answers: seq<Answer>, id: string, accepted: bool)
    requires |ids| == |answers|
    ensures Retrieval(id, accepted) in EventsOfAll(requests, ids, answers) <==>
            exists k :: 0 <= k < |ids| && ids[k] == id && CallsAs(RecordOf(requests, id), answers[k], accepted)
  {
    var e := Retrieval(id, accepted);
    if e in EventsOfAll(requests, ids, answers) {
      OnlyCalls(requests, ids, answers, e);
    }
    if k :| 0 <= k < |ids| && ids[k] == id && CallsAs(RecordOf(requests, id), answers[k], accepted) {
      EventOf(requests, ids, answers, k, e);
    }
  }

  /** A pass calls for the retrieval of exactly the files that lie dormant in Glacier, whose
      place is known and for which no call was accepted before. */
  lemma PassCalls(w: Kept, p: Pass, single: bool, id: string, accepted: bool)
    requires Fits(p) && p.ids.Some? && Distinct(p.ids.value)
    ensures var s := RequestRestore(State(w.requests, w.summary, w.log), p, single);
            && w.log <= s.log
            && (Retrieval(id, accepted) in s.log[|w.log|..] <==>
                exists k :: 0 <= k < |p.ids.value| && p.ids.value[k] == id &&
                            CallsAs(RecordOf(w.requests, id), p.answers[k], accepted))
  {
    AllEvents(Begin(State(w.requests, w.summary, w.log)), p.ids.value, p.answers, single);
    Halves(w.log, EventsOfAll(w.requests, p.ids.value, p.answers));
    CallsIff(w.requests, p.ids.value, p.answers, id, accepted);
  }

  // ----- the decision -----

  /** After a pass without an error the file is known to be in S3, or its retrieval accepted. */
  predicate Arrives(r: Option<Request>, a: Answer) {
    a.head.Complete? || IsAvailable(r)
  }

  predicate Promised(r: Option<Request>, a: Answer) {
    a.head.Complete? || a.head.InProgress? || IsAccepted(r) || CallsAs(r, a, true)
  }

  lemma FileDecides(r: Option<Request>, id: string, a: Answer)
    requires !Errs(r, a)
    ensures var after := RecordAfter(r, id, a);
            after.Some? && IsAvailable(after) == Arrives(r, a) && IsAccepted(after) == Promised(r, a)
  {
  }

  lemma ByFile(requests: seq<Request>)
    requires Unique(requests)
    ensures (forall k :: 0 <= k < |requests| ==> requests[k].available) <==>
            forall id :: RecordOf(requests, id).Some? ==> IsAvailable(RecordOf(requests, id))
    ensures (forall k :: 0 <= k < |requests| ==> requests[k].accepted) <==>
            forall id :: RecordOf(requests, id).Some? ==> IsAccepted(RecordOf(requests, id))
  {
    forall k | 0 <= k < |requests| ensures RecordOf(requests, requests[k].id) == Some(requests[k]) {
      RecordIs(requests, k);
    }
  }

  /** Every file the pass names arrives, and every other record is of one that has. */
  ghost predicate AllArrive(w: Kept, p: Pass)
    requires Fits(p) && p.ids.Some?
  {
    && (forall k :: 0 <= k < |p.ids.value| ==> Arrives(RecordOf(w.requests, p.ids.value[k]), p.answers[k]))
    && (forall id :: id !in p.ids.value && RecordOf(w.requests, id).Some? ==> IsAvailable(RecordOf(w.requests, id)))
  }

  ghost predicate AllPromised(w: Kept, p: Pass)
    requires Fits(p) && p.ids.Some?
  {
    && (forall k :: 0 <= k < |p.ids.value| ==> Promised(RecordOf(w.requests, p.ids.value[k]), p.answers[k]))
    && (forall id :: id !in p.ids.value && RecordOf(w.requests, id).Some? ==> IsAccepted(RecordOf(w.requests, id)))
  }

  /** The records after a pass without an error. */
  ghost predicate Follows(w: Kept, p: Pass, after: seq<Request>)
    requires Fits(p) && p.ids.Some?
  {
    && (forall k :: 0 <= k < |p.ids.value| ==>
          var r, n := RecordOf(w.requests, p.ids.value[k]), RecordOf(after, p.ids.value[k]);
          n.Some? && IsAvailable(n) == Arrives(r, p.answers[k]) && IsAccepted(n) == Promised(r, p.answers[k]))
    && (forall id :: id !in p.ids.value ==> RecordOf(after, id) == RecordOf(w.requests, id))
  }

  lemma PassFollows(w: Kept, p: Pass, single: bool)
    requires Fits(p) && p.ids.Some? && Distinct(p.ids.value) && !SomeErrs(w.requests, p.ids.value, p.answers)
    ensures Follows(w, p, RequestRestore(State(w.requests, w.summary, w.log), p, single).requests)
  {
    var ids := p.ids.value;
    PassIs(w, p, single);
    forall k | 0 <= k < |ids|
      ensures var r := RecordOf(w.requests, ids[k]);
              var n := RecordAfter(r, ids[k], p.answers[k]);
              n.Some? && IsAvailable(n) == Arrives(r, p.answers[k]) && IsAccepted(n) == Promised(r, p.answers[k])
    {
      FileDecides(RecordOf(w.requests, ids[k]), ids[k], p.answers[k]);
    }
  }

  lemma AllInS3Iff(w: Kept, p: Pass, after: seq<Request>)
    requires Fits(p) && p.ids.Some? && Follows(w, p, after) && Unique(after)
    ensures AllInS3(after, p.ids.value) <==> AllArrive(w, p)
  {
    ByFile(after);
    assert forall k :: 0 <= k < |p.ids.value| ==> Has(after, p.ids.value[k]);
  }

  lemma AllAcceptedIff(w: Kept, p: Pass, after: seq<Request>)
    requires Fits(p) && p.ids.Some? && Follows(w, p, after) && Unique(after)
    ensures AllAccepted(after, p.ids.value) <==> AllPromised(w, p)
  {
    ByFile(after);
    assert forall k :: 0 <= k < |p.ids.value| ==> Has(after, p.ids.value[k]);
  }

  /** What every pass decides, in terms of the records it finds and the answers it gets. */
  lemma PassDecides(w: Kept, p: Pass, single: bool, maxAttempts: nat)
    requires Fits(p) && p.ids.Some? && Distinct(p.ids.value) && Glacier.Sound(State(w.requests, w.summary, w.log))
    ensures AfterPass(w, p, single, maxAttempts).decision ==
            if SomeErrs(w.requests, p.ids.value, p.answers) then FailedWithError
            else if AllArrive(w, p) then Ready
            else if Next(w.summary.attemptNumber) >= maxAttempts then GivenUp
            else if AllPromised(w, p) then PollLater
            else AskAgain
  {
    var s := RequestRestore(State(w.requests, w.summary, w.log), p, single);
    AllEvents(Begin(State(w.requests, w.summary, w.log)), p.ids.value, p.answers, single);
    if !SomeErrs(w.requests, p.ids.value, p.answers) {
      PassFollows(w, p, single);
      PassKeeps(State(w.requests, w.summary, w.log), p, single);
      AllInS3Iff(w, p, s.requests);
      AllAcceptedIff(w, p, s.requests);
    }
  }

  // ----- from the first call to the Restore item -----

  predicate Over(p: Pass, ids: seq<string>) {
    p.ids == Some(ids) && |p.answers| == |ids| && p.saved
  }

  /** All files lie dormant and every call for them is accepted. */
  predicate CallsAll(p: Pass, ids: seq<string>) {
    Over(p, ids) && forall k :: 0 <= k < |ids| ==> p.answers[k] == Answer(Dormant, true, Accepted)
  }

  predicate WaitsForAll(p: Pass, ids: seq<string>) {
    Over(p, ids) && forall k :: 0 <= k < |ids| ==> p.answers[k].head.InProgress?
  }

  predicate SeesAll(p: Pass, ids: seq<string>) {
    Over(p, ids) && forall k :: 0 <= k < |ids| ==> p.answers[k].head.Complete?
  }

  /** The retrievals of exactly these files are under way after so many passes. */
  ghost predicate UnderWay(w: Kept, ids: seq<string>, n: nat) {
    && Glacier.Sound(State(w.requests, w.summary, w.log)) && w.summary.attemptNumber <= n
    && (forall k :: 0 <= k < |ids| ==>
          IsAccepted(RecordOf(w.requests, ids[k])) && !IsAvailable(RecordOf(w.requests, ids[k])))
    && (forall id :: id !in ids ==> RecordOf(w.requests, id) == None)
  }

  lemma SavedPass(w: Kept, p: Pass, single: bool, maxAttempts: nat)
    requires Fits(p) && p.saved && Glacier.Sound(State(w.requests, w.summary, w.log))
    ensures var r := AfterPass(w, p, single, maxAttempts);
            var s := RequestRestore(State(w.requests, w.summary, w.log), p, single);
            && r.requests == s.requests && Glacier.Sound(State(r.requests, r.summary, r.log))
            && (r.decision != Ready ==> r.log == s.log)
  {
    var s := RequestRestore(State(w.requests, w.summary, w.log), p, single);
    PassKeeps(State(w.requests, w.summary, w.log), p, single);
    TruthfulLonger(s.requests, s.log, s.log + [RestoreCreated]);
  }

  /** The first pass calls for every file, and is followed by polling. */
  lemma FirstPass(p: Pass, ids: seq<string>, single: bool, maxAttempts: nat)
    requires CallsAll(p, ids) && Distinct(ids) && |ids| > 0 && maxAttempts > 1
    ensures var r := AfterPass(START, p, single, maxAttempts); r.decision == PollLater && UnderWay(r, ids, 1)
    ensures forall k :: 0 <= k < |ids| ==> Retrieval(ids[k], true) in AfterPass(START, p, single, maxAttempts).log
  {
    var r := AfterPass(START, p, single, maxAttempts);
    assert forall id :: RecordOf(START.requests, id) == None;
    assert !Arrives(None, p.answers[0]);
    PassIs(START, p, single);
    PassDecides(START, p, single, maxAttempts);
    SavedPass(START, p, single, maxAttempts);
    forall k | 0 <= k < |ids| ensures Retrieval(ids[k], true) in r.log {
      EventOf(START.requests, ids, p.answers, k, Retrieval(ids[k], true));
    }
  }

  lemma WaitingPassGoesOn(w: Kept, p: Pass, ids: seq<string>, n: nat, single: bool, maxAttempts: nat)
    requires UnderWay(w, ids, n) && WaitsForAll(p, ids) && Distinct(ids) && |ids| > 0 && n + 1 < maxAttempts
    ensures var r := AfterPass(w, p, single, maxAttempts);
            r.decision == PollLater && UnderWay(r, ids, n + 1) && r.log == w.log
  {
    assert !Arrives(RecordOf(w.requests, ids[0]), p.answers[0]);
    PassIs(w, p, single);
    PassDecides(w, p, single, maxAttempts);
    SavedPass(w, p, single, maxAttempts);
    NoEvents(w.requests, ids, p.answers);
    Nothing(w.log);
  }

  lemma {:induction false} NoEvents(requests: seq<Request>, ids: seq<string>, answers: seq<Answer>)
    requires |ids| == |answers| && forall k :: 0 <= k < |ids| ==> answers[k].head.InProgress?
    ensures EventsOfAll(requests, ids, answers) == []
    decreases |ids|
  {
    if |ids| > 0 {
      NoEvents(requests, ids[1..], answers[1..]);
    }
  }

  lemma {:induction false} WaitingGoesOn(w: Kept, ps: seq<Pass>, ids: seq<string>, n: nat, single: bool,
                                         maxAttempts: nat)
    requires UnderWay(w, ids, n) && Distinct(ids) && |ids| > 0 && n + |ps| < maxAttempts && AllFit(ps)
    requires forall k :: 0 <= k < |ps| ==> WaitsForAll(ps[k], ids)
    ensures var r := Run(w, ps, single, maxAttempts);
            UnderWay(r, ids, n + |ps|) && r.log == w.log && (|ps| > 0 ==> r.decision == PollLater)
    decreases |ps|
  {
    if |ps| > 0 {
      WaitingPassGoesOn(w, ps[0], ids, n, single, maxAttempts);
      WaitingGoesOn(AfterPass(w, ps[0], single, maxAttempts), ps[1..], ids, n + 1, single, maxAttempts);
      if |ps| == 1 {
        assert Run(AfterPass(w, ps[0], single, maxAttempts), ps[1..], single, maxAttempts) ==
               AfterPass(w, ps[0], single, maxAttempts);
      }
    }
  }

  lemma LastPass(w: Kept, p: Pass, ids: seq<string>, n: nat, single: bool, maxAttempts: nat)
    requires UnderWay(w, ids, n) && SeesAll(p, ids) && Distinct(ids) && !p.pending
    ensures var r := AfterPass(w, p, single, maxAttempts); r.decision == Ready && RestoreCreated in r.log
  {
    assert AllArrive(w, p);
    PassDecides(w, p, single, maxAttempts);
  }

  /** An item whose retrievals are all called for and accepted, and arrive within the allowed
      attempts, is polled until then and ends in a Restore item. */
  lemma RetrievalLeadsToRestore(first: Pass, waits: seq<Pass>, last: Pass, ids: seq<string>, single: bool,
                                maxAttempts: nat)
    requires Distinct(ids) && |ids| > 0 && 1 + |waits| < maxAttempts && AllFit(waits)
    requires CallsAll(first, ids) && SeesAll(last, ids) && !last.pending
    requires forall k :: 0 <= k < |waits| ==> WaitsForAll(waits[k], ids)
    ensures var polled := Run(AfterPass(START, first, single, maxAttempts), waits, single, maxAttempts);
            var r := AfterPass(polled, last, single, maxAttempts);
            polled.decision == PollLater && r.decision == Ready && RestoreCreated in r.log
  {
    var w := AfterPass(START, first, single, maxAttempts);
    FirstPass(first, ids, single, maxAttempts);
    WaitingGoesOn(w, waits, ids, 1, single, maxAttempts);
    LastPass(Run(w, waits, single, maxAttempts), last, ids, 1 + |waits|, single, maxAttempts);
  }
}
