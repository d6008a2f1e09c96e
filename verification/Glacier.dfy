/** Moving files from Glacier to S3 before a restoration (workers/apt_glacier_restore_init.go,
    models/glacier_restore_state.go): one pass over the files asks S3 for the state of each,
    requests retrievals, and decides whether to poll again, give up or go on. */
module Glacier {
  import opened Collections
  import opened WorkSummaries
  import opened Options

  /** A GlacierRestoreRequest: the record kept of one file. */
  datatype Request = Request(id: string, accepted: bool, requested: bool, available: bool)

  /** What AWS could observe: answers to a HEAD that the file is in S3, retrieval calls with
      whether they were accepted, and new Restore items in Pharos. */
  datatype Event = SeenInS3(id: string) | Retrieval(id: string, accepted: bool) | RestoreCreated

  datatype Head = NoClient | HeadFails | NoInfo | InProgress | Complete | Dormant

  datatype Response = Accepted | Declined | Refused

  /** The answers about one file: its HEAD, whether bucket and key can be worked out, and
      the reply to a retrieval call. */
  datatype Answer = Answer(head: Head, details: bool, response: Response)

  datatype State = State(requests: seq<Request>, summary: Summary, log: seq<Event>)

  type Job = s: State | s.summary.Bounded() witness State([], FRESH, [])

  // ----- records -----

  /** The first record of a file, or the length of the list if there is none. */
  function Find(requests: seq<Request>, id: string): (k: nat)
    ensures k <= |requests| && (k < |requests| ==> requests[k].id == id) &&
            forall j :: 0 <= j < k ==> requests[j].id != id
    decreases |requests|
  {
    if |requests| == 0 || requests[0].id == id then 0 else 1 + Find(requests[1..], id)
  }

  predicate Has(requests: seq<Request>, id: string) {
    Find(requests, id) < |requests|
  }

  function WithRecord(requests: seq<Request>, id: string): (r: seq<Request>)
    ensures Has(r, id)
    ensures requests <= r && |r| <= |requests| + 1 &&
            (|r| > |requests| ==> r[|requests|] == Request(id, false, false, false))
    ensures forall k :: 0 <= k < |requests| ==> r[k] == requests[k]
    ensures |r| > |requests| ==> forall k :: 0 <= k < |requests| ==> requests[k].id != id
  {
    if Has(requests, id) then requests
    else
      var r := requests + [Request(id, false, false, false)];
      assert r[|requests|].id == id;
      r
  }

  /** A HEAD shows that the retrieval runs, or that the file is in S3. */
  function Advanced(requests: seq<Request>, id: string, inS3: bool): seq<Request>
    requires Has(requests, id)
  {
    var k := Find(requests, id);
    requests[k := Request(id, true, true, requests[k].available || inS3)]
  }

  /** A retrieval call was made for a record that was not accepted before. */
  function Called(requests: seq<Request>, id: string, accepted: bool): seq<Request>
    requires Has(requests, id)
  {
    var k := Find(requests, id);
    requests[k := Request(id, accepted, true, requests[k].available)]
  }

  // ----- one file -----

  datatype Checked = Checked(state: Job, needed: bool, failed: bool)

  /** RestoreRequestNeeded. A file whose bucket cannot be worked out is both a failure and in
      need of a request. */
  function Check(s: Job, id: string, a: Answer): (c: Checked)
    ensures c.state.summary.attemptNumber == s.summary.attemptNumber &&
            (s.summary.HasErrors() ==> c.state.summary.HasErrors())
  {
    if a.head.NoClient? || a.head.HeadFails? || a.head.NoInfo? then Checked(s, false, true)
    else if !Has(s.requests, id) && !a.details then
      Checked(s.(summary := s.summary.WithError("no details")), true, true)
    else
      var requests := WithRecord(s.requests, id);
      if a.head.InProgress? then Checked(s.(requests := Advanced(requests, id, false)), false, false)
      else if a.head.Complete? then
        Checked(s.(requests := Advanced(requests, id, true), log := s.log + [SeenInS3(id)]), false, false)
      else Checked(s.(requests := requests), true, false)
  }

  /** RequestFile: no retrieval call for a file whose record is accepted. */
  function Ask(s: Job, id: string, a: Answer): (r: Job)
    ensures r.summary.attemptNumber == s.summary.attemptNumber && (s.summary.HasErrors() ==> r.summary.HasErrors())
  {
    if !a.details then s.(summary := s.summary.WithError("no details"))
    else
      var requests := WithRecord(s.requests, id);
      if requests[Find(requests, id)].accepted then s.(requests := requests)
      else
        s.(requests := Called(requests, id, a.response == Accepted),
           summary := if a.response == Refused then s.summary.WithError("retrieval refused") else s.summary,
           log := s.log + [Retrieval(id, a.response == Accepted)])
  }

  /** One file of an object, or the only file of a single-file item, which is asked for even
      when the check failed for want of details. */
  function Handle(s: Job, id: string, a: Answer, single: bool): (r: Job)
    ensures r.summary.attemptNumber == s.summary.attemptNumber && (s.summary.HasErrors() ==> r.summary.HasErrors())
  {
    var c := Check(s, id, a);
    var noted: Job := if c.failed then c.state.(summary := c.state.summary.WithError("check failed")) else c.state;
    if c.needed && (single || !c.failed) then Ask(noted, id, a) else noted
  }

  // ----- one pass -----

  /** What a pass finds: the files Pharos names now, or an error; the answers about each; a
      pending Restore item; and whether the state could be saved. */
  datatype Pass = Pass(ids: Option<seq<string>>, answers: seq<Answer>, pending: bool, saved: bool)

  predicate Fits(p: Pass) {
    p.ids.Some? ==> |p.answers| == |p.ids.value|
  }

  function HandleAll(s: Job, ids: seq<string>, answers: seq<Answer>, single: bool): (r: Job)
    requires |ids| == |answers|
    ensures r.summary.attemptNumber == s.summary.attemptNumber && (s.summary.HasErrors() ==> r.summary.HasErrors())
    decreases |ids|
  {
    if |ids| == 0 then s else HandleAll(Handle(s, ids[0], answers[0], single), ids[1..], answers[1..], single)
  }

  function Begin(s: Job): Job {
    s.(summary := s.summary.Cleared().Begun())
  }

  function RequestRestore(s: Job, p: Pass, single: bool): (r: Job)
    requires Fits(p)
    ensures r.summary.attemptNumber == Next(s.summary.attemptNumber)
  {
    if p.ids.None? then Begin(s).(summary := Begin(s).summary.WithError("Pharos error"))
    else HandleAll(Begin(s), p.ids.value, p.answers, single)
  }

  datatype Decision = FailedWithError | Ready | GivenUp | PollLater | AskAgain

  predicate IsFinal(d: Decision) {
    d.FailedWithError? || d.Ready? || d.GivenUp?
  }

  predicate AllInS3(requests: seq<Request>, ids: seq<string>) {
    (forall k :: 0 <= k < |ids| ==> Has(requests, ids[k])) &&
    (forall k :: 0 <= k < |requests| ==> requests[k].available)
  }

  predicate AllAccepted(requests: seq<Request>, ids: seq<string>) {
    (forall k :: 0 <= k < |ids| ==> Has(requests, ids[k])) && (forall k :: 0 <= k < |requests| ==> requests[k].accepted)
  }

  /** Cleanup, without the work item it then writes. */
  function Decide(s: Job, p: Pass, maxAttempts: nat): Decision {
    if s.summary.HasErrors() || p.ids.None? then FailedWithError
    else if AllInS3(s.requests, p.ids.value) then Ready
    else if s.summary.attemptNumber >= maxAttempts then GivenUp
    else if AllAccepted(s.requests, p.ids.value) then PollLater
    else AskAgain
  }

  /** What Pharos keeps of the state between passes, and what the world has seen. */
  datatype World = World(requests: seq<Request>, summary: Summary, log: seq<Event>, decision: Decision)

  type Kept = w: World | w.summary.Bounded() witness World([], FRESH, [], AskAgain)

  const START: Kept := World([], FRESH, [], AskAgain)

  /** One pass. A new Restore item is created unless one is pending. */
  function AfterPass(w: Kept, p: Pass, single: bool, maxAttempts: nat): (r: Kept)
    requires Fits(p)
    ensures p.saved ==> r.summary.attemptNumber == Next(w.summary.attemptNumber)
    ensures p.saved && !IsFinal(r.decision) ==> r.summary.attemptNumber < maxAttempts
  {
    var s := RequestRestore(State(w.requests, w.summary, w.log), p, single);
    var decision := Decide(s, p, maxAttempts);
    var log := if decision.Ready? && !p.pending then s.log + [RestoreCreated] else s.log;
    if p.saved then World(s.requests, s.summary.Done(), log, decision) else World(w.requests, w.summary, log, decision)
  }

  predicate AllFit(ps: seq<Pass>) {
    forall k :: 0 <= k < |ps| ==> Fits(ps[k])
  }

  function Run(w: Kept, ps: seq<Pass>, single: bool, maxAttempts: nat): Kept
    requires AllFit(ps)
    decreases |ps|
  {
    if |ps| == 0 then w else Run(AfterPass(w, ps[0], single, maxAttempts), ps[1..], single, maxAttempts)
  }

  // ----- what every step keeps of the records -----

  predicate Unique(requests: seq<Request>) {
    forall j, k :: 0 <= j < k < |requests| ==> requests[j].id != requests[k].id
  }

  /** The same files in the same order, perhaps more; accepted and available stay so. */
  predicate Grown(before: seq<Request>, after: seq<Request>) {
    && |before| <= |after|
    && forall k :: 0 <= k < |before| ==>
         && after[k].id == before[k].id && (before[k].accepted ==> after[k].accepted)
         && (before[k].available ==> after[k].available)
  }

  /** A record says available only of a file that a HEAD has shown in S3. */
  predicate Truthful(requests: seq<Request>, log: seq<Event>) {
    forall k :: 0 <= k < |requests| && requests[k].available ==> SeenInS3(requests[k].id) in log
  }

  lemma WithRecordKeeps(requests: seq<Request>, id: string, log: seq<Event>)
    requires Unique(requests) && Truthful(requests, log)
    ensures var r := WithRecord(requests, id); Unique(r) && Grown(requests, r) && Truthful(r, log)
  {
  }

  lemma AdvancedKeeps(requests: seq<Request>, id: string, inS3: bool, log: seq<Event>)
    requires Has(requests, id) && Unique(requests) && Truthful(requests, log) && (inS3 ==> SeenInS3(id) in log)
    ensures var r := Advanced(requests, id, inS3); Unique(r) && Grown(requests, r) && Truthful(r, log)
  {
  }

  lemma CalledKeeps(requests: seq<Request>, id: string, accepted: bool, log: seq<Event>)
    requires Has(requests, id) && Unique(requests) && Truthful(requests, log) && !requests[Find(requests, id)].accepted
    ensures var r := Called(requests, id, accepted); Unique(r) && Grown(requests, r) && Truthful(r, log)
  {
  }

  lemma LongerLog(requests: seq<Request>, log: seq<Event>, e: Event)
    requires Truthful(requests, log)
    ensures Truthful(requests, log + [e]) && e in log + [e]
  {
    assert (log + [e])[|log|] == e;
  }

  predicate Sound(s: State) {
    Unique(s.requests) && Truthful(s.requests, s.log)
  }

  lemma GrownTransitive(a: seq<Request>, b: seq<Request>, c: seq<Request>)
    requires Grown(a, b) && Grown(b, c)
    ensures Grown(a, c)
  {
    forall k | 0 <= k < |a|
      ensures c[k].id == a[k].id && (a[k].accepted ==> c[k].accepted) && (a[k].available ==> c[k].available)
    {
      assert b[k].id == a[k].id;
    }
  }

  lemma CheckKeeps(s: Job, id: string, a: Answer)
    requires Sound(s)
    ensures var c := Check(s, id, a); Sound(c.state) && Grown(s.requests, c.state.requests) && s.log <= c.state.log
  {
    WithRecordKeeps(s.requests, id, s.log);
    var requests := WithRecord(s.requests, id);
    LongerLog(requests, s.log, SeenInS3(id));
    AdvancedKeeps(requests, id, false, s.log);
    AdvancedKeeps(requests, id, true, s.log + [SeenInS3(id)]);
    GrownTransitive(s.requests, requests, Advanced(requests, id, false));
    GrownTransitive(s.requests, requests, Advanced(requests, id, true));
  }

  lemma AskKeeps(s: Job, id: string, a: Answer)
    requires Sound(s)
    ensures var r := Ask(s, id, a); Sound(r) && Grown(s.requests, r.requests) && s.log <= r.log
  {
    WithRecordKeeps(s.requests, id, s.log);
    var requests := WithRecord(s.requests, id);
    var e := Retrieval(id, a.response == Accepted);
    LongerLog(requests, s.log, e);
    if !requests[Find(requests, id)].accepted {
      CalledKeeps(requests, id, a.response == Accepted, s.log + [e]);
      GrownTransitive(s.requests, requests, Called(requests, id, a.response == Accepted));
    }
  }

  lemma HandleKeeps(s: Job, id: string, a: Answer, single: bool)
    requires Sound(s)
    ensures var r := Handle(s, id, a, single); Sound(r) && Grown(s.requests, r.requests) && s.log <= r.log
  {
    CheckKeeps(s, id, a);
    var c := Check(s, id, a);
    var noted: Job := if c.failed then c.state.(summary := c.state.summary.WithError("check failed")) else c.state;
    AskKeeps(noted, id, a);
    GrownTransitive(s.requests, noted.requests, Ask(noted, id, a).requests);
  }

  lemma {:induction false} HandleAllKeeps(s: Job, ids: seq<string>, answers: seq<Answer>, single: bool)
    requires |ids| == |answers| && Sound(s)
    ensures var r := HandleAll(s, ids, answers, single); Sound(r) && Grown(s.requests, r.requests) && s.log <= r.log
    decreases |ids|
  {
    if |ids| > 0 {
      HandleKeeps(s, ids[0], answers[0], single);
      var next := Handle(s, ids[0], answers[0], single);
      HandleAllKeeps(next, ids[1..], answers[1..], single);
      GrownTransitive(s.requests, next.requests, HandleAll(next, ids[1..], answers[1..], single).requests);
    }
  }

  /** One pass keeps at most one record a file, never takes back that a request was accepted
      or that a file is available, and says available only of files seen in S3. */
  lemma PassKeeps(s: Job, p: Pass, single: bool)
    requires Fits(p) && Sound(s)
    ensures var r := RequestRestore(s, p, single); Sound(r) && Grown(s.requests, r.requests) && s.log <= r.log
  {
    if p.ids.Some? {
      HandleAllKeeps(Begin(s), p.ids.value, p.answers, single);
    }
  }

  // ----- over whole runs -----

  lemma TruthfulLonger(requests: seq<Request>, log: seq<Event>, longer: seq<Event>)
    requires Truthful(requests, log) && log <= longer
    ensures Truthful(requests, longer)
  {
    assert forall e :: e in log ==> e in longer;
  }

  predicate SoundWorld(w: World) {
    Unique(w.requests) && Truthful(w.requests, w.log)
  }

  lemma StepKeeps(w: Kept, p: Pass, single: bool, maxAttempts: nat)
    requires Fits(p) && SoundWorld(w)
    ensures SoundWorld(AfterPass(w, p, single, maxAttempts)) && w.log <= AfterPass(w, p, single, maxAttempts).log
  {
    var s := State(w.requests, w.summary, w.log);
    PassKeeps(s, p, single);
    var r := RequestRestore(s, p, single);
    TruthfulLonger(r.requests, r.log, AfterPass(w, p, single, maxAttempts).log);
    TruthfulLonger(w.requests, w.log, AfterPass(w, p, single, maxAttempts).log);
  }

  lemma {:induction false} RunKeeps(w: Kept, ps: seq<Pass>, single: bool, maxAttempts: nat)
    requires AllFit(ps) && SoundWorld(w)
    ensures SoundWorld(Run(w, ps, single, maxAttempts))
    decreases |ps|
  {
    if |ps| > 0 {
      StepKeeps(w, ps[0], single, maxAttempts);
      RunKeeps(AfterPass(w, ps[0], single, maxAttempts), ps[1..], single, maxAttempts);
    }
  }

  lemma ReadyMeansSeen(w: Kept, p: Pass, single: bool, maxAttempts: nat)
    requires Fits(p) && SoundWorld(w) && AfterPass(w, p, single, maxAttempts).decision == Ready
    ensures !RequestRestore(State(w.requests, w.summary, w.log), p, single).summary.HasErrors()
    ensures p.ids.Some? &&
            forall k :: 0 <= k < |p.ids.value| ==> SeenInS3(p.ids.value[k]) in AfterPass(w, p, single, maxAttempts).log
  {
    var s := State(w.requests, w.summary, w.log);
    PassKeeps(s, p, single);
    var r := RequestRestore(s, p, single);
    forall k | 0 <= k < |p.ids.value| ensures SeenInS3(p.ids.value[k]) in r.log {
      var i := Find(r.requests, p.ids.value[k]);
      assert r.requests[i].available && r.requests[i].id == p.ids.value[k];
    }
  }

  /** No file's handling creates a Restore item. */
  predicate Uncreated(log: seq<Event>, from: nat) {
    forall k :: from <= k < |log| ==> log[k] != RestoreCreated
  }

  lemma {:induction false} HandlingCreatesNothing(s: Job, ids: seq<string>, answers: seq<Answer>, single: bool,
                                                  from: nat)
    requires |ids| == |answers| && Uncreated(s.log, from)
    ensures Uncreated(HandleAll(s, ids, answers, single).log, from)
    decreases |ids|
  {
    if |ids| > 0 {
      HandlingCreatesNothing(Handle(s, ids[0], answers[0], single), ids[1..], answers[1..], single, from);
    }
  }

  /** A pass creates a Restore item exactly when it finds the item ready and none pending. */
  lemma CreatedIffReady(w: Kept, p: Pass, single: bool, maxAttempts: nat)
    requires Fits(p) && SoundWorld(w)
    ensures var r := AfterPass(w, p, single, maxAttempts);
            !Uncreated(r.log, |w.log|) <==> r.decision == Ready && !p.pending
  {
    var s := State(w.requests, w.summary, w.log);
    PassKeeps(s, p, single);
    if p.ids.Some? {
      HandlingCreatesNothing(Begin(s), p.ids.value, p.answers, single, |w.log|);
    }
    var log := RequestRestore(s, p, single).log;
    assert (log + [RestoreCreated])[|log|] == RestoreCreated;
  }

  /** In every run, a pass finds an item ready for the restorer only if it met no error and
      each file it needs now has been seen in S3, in this pass or an earlier one. */
  lemma RestoreOnlyWhenAllSeen(ps: seq<Pass>, p: Pass, single: bool, maxAttempts: nat)
    requires AllFit(ps) && Fits(p)
    requires AfterPass(Run(START, ps, single, maxAttempts), p, single, maxAttempts).decision == Ready
    ensures var w := Run(START, ps, single, maxAttempts);
            !RequestRestore(State(w.requests, w.summary, w.log), p, single).summary.HasErrors()
    ensures p.ids.Some?
    ensures forall k :: 0 <= k < |p.ids.value| ==>
              SeenInS3(p.ids.value[k]) in AfterPass(Run(START, ps, single, maxAttempts), p, single, maxAttempts).log
  {
    RunKeeps(START, ps, single, maxAttempts);
    ReadyMeansSeen(Run(START, ps, single, maxAttempts), p, single, maxAttempts);
  }

  // ----- one accepted retrieval a file -----

  predicate OnceAccepted(log: seq<Event>) {
    forall i, j :: 0 <= i < j < |log| && log[i].Retrieval? && log[i].accepted ==> log[j] != log[i]
  }

  predicate AcceptedIn(requests: seq<Request>, id: string) {
    exists k :: 0 <= k < |requests| && requests[k].id == id && requests[k].accepted
  }

  predicate Recorded(requests: seq<Request>, log: seq<Event>) {
    forall i :: 0 <= i < |log| && log[i].Retrieval? && log[i].accepted ==> AcceptedIn(requests, log[i].id)
  }

  predicate Frugal(s: State) {
    Sound(s) && OnceAccepted(s.log) && Recorded(s.requests, s.log)
  }

  lemma RecordedGrown(before: seq<Request>, after: seq<Request>, log: seq<Event>)
    requires Recorded(before, log) && Grown(before, after)
    ensures Recorded(after, log)
  {
    forall i | 0 <= i < |log| && log[i].Retrieval? && log[i].accepted ensures AcceptedIn(after, log[i].id) {
      var k :| 0 <= k < |before| && before[k].id == log[i].id && before[k].accepted;
      assert after[k].id == log[i].id && after[k].accepted;
    }
  }

  lemma FrugalAppend(requests: seq<Request>, log: seq<Event>, e: Event)
    requires OnceAccepted(log) && Recorded(requests, log)
    requires e.Retrieval? && e.accepted ==> AcceptedIn(requests, e.id) && e !in log
    ensures OnceAccepted(log + [e]) && Recorded(requests, log + [e])
  {
    var r := log + [e];
    assert r[|log|] == e && forall i :: 0 <= i < |log| ==> r[i] == log[i];
  }

  lemma CheckFrugal(s: Job, id: string, a: Answer)
    requires Frugal(s)
    ensures Frugal(Check(s, id, a).state)
  {
    CheckKeeps(s, id, a);
    var c := Check(s, id, a).state;
    RecordedGrown(s.requests, c.requests, s.log);
    FrugalAppend(c.requests, s.log, SeenInS3(id));
  }

  lemma NotAcceptedNotLogged(requests: seq<Request>, log: seq<Event>, id: string)
    requires Has(requests, id) && Unique(requests) && Recorded(requests, log) && !requests[Find(requests, id)].accepted
    ensures Retrieval(id, true) !in log
  {
    var f := Find(requests, id);
    forall k | 0 <= k < |requests| && requests[k].id == id ensures !requests[k].accepted {
      assert !(f < k) && !(k < f);
    }
    assert !AcceptedIn(requests, id);
  }

  lemma AskFrugal(s: Job, id: string, a: Answer)
    requires Frugal(s)
    ensures Frugal(Ask(s, id, a))
  {
    AskKeeps(s, id, a);
    WithRecordKeeps(s.requests, id, s.log);
    var requests := WithRecord(s.requests, id);
    var r := Ask(s, id, a);
    RecordedGrown(s.requests, requests, s.log);
    RecordedGrown(s.requests, r.requests, s.log);
    if a.details && !requests[Find(requests, id)].accepted {
      NotAcceptedNotLogged(requests, s.log, id);
      assert r.requests[Find(requests, id)] ==
             Request(id, a.response == Accepted, true, requests[Find(requests, id)].available);
      FrugalAppend(r.requests, s.log, Retrieval(id, a.response == Accepted));
    }
  }

  lemma {:induction false} HandleAllFrugal(s: Job, ids: seq<string>, answers: seq<Answer>, single: bool)
    requires |ids| == |answers| && Frugal(s)
    ensures Frugal(HandleAll(s, ids, answers, single))
    decreases |ids|
  {
    if |ids| > 0 {
      CheckFrugal(s, ids[0], answers[0]);
      var c := Check(s, ids[0], answers[0]);
      var noted := if c.failed then c.state.(summary := c.state.summary.WithError("check failed")) else c.state;
      AskFrugal(noted, ids[0], answers[0]);
      HandleAllFrugal(Handle(s, ids[0], answers[0], single), ids[1..], answers[1..], single);
    }
  }

  lemma StepFrugal(w: Kept, p: Pass, single: bool, maxAttempts: nat)
    requires Fits(p) && p.saved && Frugal(State(w.requests, w.summary, w.log))
    ensures var r := AfterPass(w, p, single, maxAttempts); Frugal(State(r.requests, r.summary, r.log))
  {
    var s := State(w.requests, w.summary, w.log);
    StepKeeps(w, p, single, maxAttempts);
    if p.ids.Some? {
      HandleAllFrugal(Begin(s), p.ids.value, p.answers, single);
    }
    var r := RequestRestore(s, p, single);
    FrugalAppend(r.requests, r.log, RestoreCreated);
  }

  /** If the state is saved after every pass, no file has more than one accepted retrieval
      call over the whole run. */
  lemma {:induction false} OneAcceptedRetrieval(w: Kept, ps: seq<Pass>, single: bool, maxAttempts: nat)
    requires AllFit(ps) && Frugal(State(w.requests, w.summary, w.log)) && forall k :: 0 <= k < |ps| ==> ps[k].saved
    ensures OnceAccepted(Run(w, ps, single, maxAttempts).log)
    decreases |ps|
  {
    if |ps| > 0 {
      StepFrugal(w, ps[0], single, maxAttempts);
      OneAcceptedRetrieval(AfterPass(w, ps[0], single, maxAttempts), ps[1..], single, maxAttempts);
    }
  }

  function OneFile(id: string, a: Answer, saved: bool): Pass {
    Pass(Some([id]), [a], false, saved)
  }

  lemma OneFilePass(w: Kept, id: string, a: Answer, saved: bool, maxAttempts: nat)
    ensures RequestRestore(State(w.requests, w.summary, w.log), OneFile(id, a, saved), true)
            == Handle(Begin(State(w.requests, w.summary, w.log)), id, a, true)
  {
    var s := Begin(State(w.requests, w.summary, w.log));
    assert HandleAll(Handle(s, id, a, true), [], [], true) == Handle(s, id, a, true);
    assert [id][1..] == [] && [a][1..] == [];
  }

  /** If the state is not saved, the same file is requested and accepted twice. */
  lemma UnsavedStateAsksTwice(id: string, maxAttempts: nat)
    ensures var p := OneFile(id, Answer(Dormant, true, Accepted), false);
            !OnceAccepted(AfterPass(AfterPass(START, p, true, maxAttempts), p, true, maxAttempts).log)
  {
    var a := Answer(Dormant, true, Accepted);
    var w := AfterPass(START, OneFile(id, a, false), true, maxAttempts);
    OneFilePass(START, id, a, false, maxAttempts);
    assert w.log == [Retrieval(id, true)];
    OneFilePass(w, id, a, false, maxAttempts);
    var log := AfterPass(w, OneFile(id, a, false), true, maxAttempts).log;
    assert log == [Retrieval(id, true), Retrieval(id, true)];
    assert log[0] == log[1];
  }

  // ----- an end to the passes -----

  predicate NeverFinal(w: Kept, ps: seq<Pass>, single: bool, maxAttempts: nat)
    requires AllFit(ps)
    decreases |ps|
  {
    || |ps| == 0
    || (!IsFinal(AfterPass(w, ps[0], single, maxAttempts).decision) &&
         NeverFinal(AfterPass(w, ps[0], single, maxAttempts), ps[1..], single, maxAttempts))
  }

  /** If the state is saved after every pass, an item is polled less than MaxAttempts times. */
  lemma {:induction false} PassesAreBounded(w: Kept, ps: seq<Pass>, single: bool, maxAttempts: nat)
    requires AllFit(ps) && |ps| > 0 && maxAttempts < 0x1_0000 && w.summary.attemptNumber < 0xffff
    requires forall k :: 0 <= k < |ps| ==> ps[k].saved
    ensures NeverFinal(w, ps, single, maxAttempts) ==> w.summary.attemptNumber + |ps| < maxAttempts
    decreases |ps|
  {
    var next := AfterPass(w, ps[0], single, maxAttempts);
    if !IsFinal(next.decision) && |ps| > 1 {
      PassesAreBounded(next, ps[1..], single, maxAttempts);
    }
  }

  predicate NoneAvailable(requests: seq<Request>) {
    forall k :: 0 <= k < |requests| ==> !requests[k].available
  }

  /** A pass over one file or more, every one of them on its way, whose state is not saved. */
  predicate Waits(p: Pass) {
    && p.ids.Some? && Fits(p) && |p.ids.value| > 0 && !p.saved
    && forall k :: 0 <= k < |p.answers| ==> p.answers[k].head == InProgress && p.answers[k].details
  }

  lemma InProgressFile(s: Job, id: string, a: Answer, single: bool)
    requires NoneAvailable(s.requests) && a.head == InProgress && a.details
    ensures var r := Handle(s, id, a, single);
            r.summary == s.summary && r.log == s.log && NoneAvailable(r.requests) && |r.requests| > 0
  {
  }

  lemma {:induction false} InProgressFiles(s: Job, ids: seq<string>, answers: seq<Answer>, single: bool)
    requires |ids| == |answers| && NoneAvailable(s.requests)
    requires forall k :: 0 <= k < |answers| ==> answers[k].head == InProgress && answers[k].details
    ensures var r := HandleAll(s, ids, answers, single);
            && r.summary == s.summary && r.log == s.log && NoneAvailable(r.requests)
            && (|ids| > 0 || |s.requests| > 0 ==> |r.requests| > 0)
    decreases |ids|
  {
    if |ids| > 0 {
      InProgressFile(s, ids[0], answers[0], single);
      InProgressFiles(Handle(s, ids[0], answers[0], single), ids[1..], answers[1..], single);
    }
  }

  lemma WaitingPass(w: Kept, p: Pass, single: bool, maxAttempts: nat)
    requires NoneAvailable(w.requests) && Waits(p)
    ensures var r := AfterPass(w, p, single, maxAttempts);
            r == w.(decision := r.decision) && (IsFinal(r.decision) <==> Next(w.summary.attemptNumber) >= maxAttempts)
  {
    var s := State(w.requests, w.summary, w.log);
    InProgressFiles(Begin(s), p.ids.value, p.answers, single);
    var r := RequestRestore(s, p, single);
    assert !r.requests[0].available;
  }

  /** If it is never saved, an item whose retrievals are on their way is polled without end,
      however many files it has and however the passes differ, exactly when MaxAttempts allows
      one more pass than are on record. */
  lemma {:induction false} UnsavedStatePollsForever(w: Kept, ps: seq<Pass>, single: bool, maxAttempts: nat)
    requires AllFit(ps) && NoneAvailable(w.requests) && |ps| > 0 && forall k :: 0 <= k < |ps| ==> Waits(ps[k])
    ensures NeverFinal(w, ps, single, maxAttempts) <==> Next(w.summary.attemptNumber) < maxAttempts
    decreases |ps|
  {
    WaitingPass(w, ps[0], single, maxAttempts);
    if |ps| > 1 {
      UnsavedStatePollsForever(AfterPass(w, ps[0], single, maxAttempts), ps[1..], single, maxAttempts);
    }
  }

  // ----- records of files no longer needed -----

  lemma CheckOther(s: Job, id: string, a: Answer, k: nat)
    requires k < |s.requests| && s.requests[k].id != id
    ensures var r := Check(s, id, a).state; k < |r.requests| && r.requests[k] == s.requests[k]
  {
  }

  lemma AskOther(s: Job, id: string, a: Answer, k: nat)
    requires k < |s.requests| && s.requests[k].id != id
    ensures var r := Ask(s, id, a); k < |r.requests| && r.requests[k] == s.requests[k]
  {
  }

  lemma HandleOther(s: Job, id: string, a: Answer, single: bool, k: nat)
    requires k < |s.requests| && s.requests[k].id != id
    ensures var r := Handle(s, id, a, single); k < |r.requests| && r.requests[k] == s.requests[k]
  {
    CheckOther(s, id, a, k);
    var c := Check(s, id, a);
    AskOther(if c.failed then c.state.(summary := c.state.summary.WithError("check failed")) else c.state, id, a, k);
  }

  lemma {:induction false} HandleAllOthers(s: Job, ids: seq<string>, answers: seq<Answer>, single: bool, k: nat)
    requires |ids| == |answers| && k < |s.requests| && s.requests[k].id !in ids
    ensures var r := HandleAll(s, ids, answers, single); k < |r.requests| && r.requests[k] == s.requests[k]
    decreases |ids|
  {
    if |ids| > 0 {
      HandleOther(s, ids[0], answers[0], single, k);
      HandleAllOthers(Handle(s, ids[0], answers[0], single), ids[1..], answers[1..], single, k);
    }
  }

  lemma StaleRequest(s: Job, p: Pass, single: bool, k: nat)
    requires Fits(p) && k < |s.requests| && (p.ids.Some? ==> s.requests[k].id !in p.ids.value)
    ensures var r := RequestRestore(s, p, single); k < |r.requests| && r.requests[k] == s.requests[k]
  {
    if p.ids.Some? {
      HandleAllOthers(Begin(s), p.ids.value, p.answers, single, k);
    }
  }

  lemma StaleStep(w: Kept, p: Pass, single: bool, maxAttempts: nat, k: nat)
    requires Fits(p) && k < |w.requests| && !w.requests[k].available
    requires p.ids.Some? ==> w.requests[k].id !in p.ids.value
    ensures var r := AfterPass(w, p, single, maxAttempts);
            r.decision != Ready && k < |r.requests| && r.requests[k] == w.requests[k]
  {
    StaleRequest(State(w.requests, w.summary, w.log), p, single, k);
  }

  /** A file that was asked for and then left the object before it reached S3 keeps the item
      from ever being ready. */
  lemma {:induction false} StaleRecordBlocks(w: Kept, ps: seq<Pass>, single: bool, maxAttempts: nat, k: nat)
    requires AllFit(ps) && |ps| > 0 && k < |w.requests| && !w.requests[k].available
    requires forall i :: 0 <= i < |ps| && ps[i].ids.Some? ==> w.requests[k].id !in ps[i].ids.value
    ensures Run(w, ps, single, maxAttempts).decision != Ready
    decreases |ps|
  {
    StaleStep(w, ps[0], single, maxAttempts, k);
    var next := AfterPass(w, ps[0], single, maxAttempts);
    if |ps| > 1 {
      StaleRecordBlocks(next, ps[1..], single, maxAttempts, k);
    } else {
      assert Run(next, ps[1..], single, maxAttempts) == next;
    }
  }

  /** When every needed file has an available record, the item is ready unless there is such
      a leftover. */
  lemma ReadyUnlessStale(requests: seq<Request>, ids: seq<string>)
    requires Unique(requests)
    requires forall k :: 0 <= k < |ids| ==> Has(requests, ids[k]) && requests[Find(requests, ids[k])].available
    ensures AllInS3(requests, ids) <==>
            forall k :: 0 <= k < |requests| && requests[k].id !in ids ==> requests[k].available
  {
    forall k | 0 <= k < |requests| && requests[k].id in ids ensures requests[k].available {
      var i :| 0 <= i < |ids| && ids[i] == requests[k].id;
      var f := Find(requests, ids[i]);
      assert requests[f].available && requests[f].id == requests[k].id;
      assert !(f < k) && !(k < f);
    }
  }

  // ----- files in S3 make the item ready -----

  predicate AvailableIn(requests: seq<Request>, id: string) {
    exists k :: 0 <= k < |requests| && requests[k].id == id && requests[k].available
  }

  /** Every record is for one of these files. */
  predicate OnlyFor(requests: seq<Request>, ids: seq<string>) {
    forall k :: 0 <= k < |requests| ==> requests[k].id in ids
  }

  lemma CompleteHead(s: Job, id: string, a: Answer, single: bool, ids: seq<string>)
    requires a.head == Complete && a.details && Sound(s) && OnlyFor(s.requests, ids) && id in ids
    ensures var r := Handle(s, id, a, single);
            r.summary == s.summary && OnlyFor(r.requests, ids) && AvailableIn(r.requests, id)
  {
    var requests := WithRecord(s.requests, id);
    assert Advanced(requests, id, true)[Find(requests, id)] == Request(id, true, true, true);
  }

  lemma AvailableGrown(before: seq<Request>, after: seq<Request>, id: string)
    requires AvailableIn(before, id) && Grown(before, after)
    ensures AvailableIn(after, id)
  {
    var k :| 0 <= k < |before| && before[k].id == id && before[k].available;
    assert after[k].id == id && after[k].available;
  }

  lemma {:induction false} CompleteHeads(s: Job, ids: seq<string>, answers: seq<Answer>, single: bool, all: seq<string>)
    requires |ids| == |answers| && Sound(s) && OnlyFor(s.requests, all)
    requires forall k :: 0 <= k < |ids| ==> ids[k] in all && answers[k].head == Complete && answers[k].details
    ensures var r := HandleAll(s, ids, answers, single);
            r.summary == s.summary && OnlyFor(r.requests, all) &&
            forall k :: 0 <= k < |ids| ==> AvailableIn(r.requests, ids[k])
    decreases |ids|
  {
    if |ids| > 0 {
      CompleteHead(s, ids[0], answers[0], single, all);
      HandleKeeps(s, ids[0], answers[0], single);
      var next := Handle(s, ids[0], answers[0], single);
      CompleteHeads(next, ids[1..], answers[1..], single, all);
      HandleAllKeeps(next, ids[1..], answers[1..], single);
      AvailableGrown(next.requests, HandleAll(next, ids[1..], answers[1..], single).requests, ids[0]);
    }
  }

  lemma AvailableMeansAllInS3(requests: seq<Request>, ids: seq<string>)
    requires Unique(requests) && OnlyFor(requests, ids) && forall k :: 0 <= k < |ids| ==> AvailableIn(requests, ids[k])
    ensures AllInS3(requests, ids)
  {
    forall k | 0 <= k < |requests| ensures requests[k].available {
      var i :| 0 <= i < |ids| && ids[i] == requests[k].id;
      assert AvailableIn(requests, ids[i]);
      var j :| 0 <= j < |requests| && requests[j].id == ids[i] && requests[j].available;
      assert !(j < k) && !(k < j);
    }
    forall k | 0 <= k < |ids| ensures Has(requests, ids[k]) {
      assert AvailableIn(requests, ids[k]);
    }
  }

  /** A pass that sees every needed file in S3 is the last, however many passes there were,
      if no record is left of a file that is not needed any more. */
  lemma SeenInS3MakesReady(w: Kept, p: Pass, single: bool, maxAttempts: nat)
    requires Fits(p) && SoundWorld(w) && p.ids.Some? && OnlyFor(w.requests, p.ids.value)
    requires forall k :: 0 <= k < |p.answers| ==> p.answers[k].head == Complete && p.answers[k].details
    ensures AfterPass(w, p, single, maxAttempts).decision == Ready
  {
    var s := State(w.requests, w.summary, w.log);
    CompleteHeads(Begin(s), p.ids.value, p.answers, single, p.ids.value);
    PassKeeps(s, p, single);
    AvailableMeansAllInS3(RequestRestore(s, p, single).requests, p.ids.value);
  }

  // ----- in place -----

  datatype Report = Report(required: nat, requested: nat, notRequested: seq<string>, notAccepted: seq<string>,
                           notInS3: seq<string>)

  function NotAccepted(requests: seq<Request>): seq<string>
    decreases |requests|
  {
    if |requests| == 0 then []
    else
      var last := requests[|requests| - 1];
      NotAccepted(requests[..|requests| - 1]) + if last.accepted then [] else [last.id]
  }

  function NotInS3(requests: seq<Request>): seq<string>
    decreases |requests|
  {
    if |requests| == 0 then []
    else
      var last := requests[|requests| - 1];
      NotInS3(requests[..|requests| - 1]) + if last.available then [] else [last.id]
  }

  function NotRequested(requests: seq<Request>, ids: seq<string>): seq<string>
    decreases |ids|
  {
    if |ids| == 0 then []
    else NotRequested(requests, ids[..|ids| - 1]) + if Has(requests, ids[|ids| - 1]) then [] else [ids[|ids| - 1]]
  }

  /** The lists of the report name exactly the files that are refused, or not yet in S3, or
      without a record. */
  lemma {:induction false} RefusedIff(requests: seq<Request>, id: string)
    ensures id in NotAccepted(requests) <==>
            exists k :: 0 <= k < |requests| && requests[k].id == id && !requests[k].accepted
    decreases |requests|
  {
    if |requests| > 0 {
      var n := |requests| - 1;
      RefusedIff(requests[..n], id);
      assert forall k :: 0 <= k < n ==> requests[..n][k] == requests[k];
    }
  }

  lemma {:induction false} AwaitedIff(requests: seq<Request>, id: string)
    ensures id in NotInS3(requests) <==>
            exists k :: 0 <= k < |requests| && requests[k].id == id && !requests[k].available
    decreases |requests|
  {
    if |requests| > 0 {
      var n := |requests| - 1;
      AwaitedIff(requests[..n], id);
      assert forall k :: 0 <= k < n ==> requests[..n][k] == requests[k];
    }
  }

  lemma {:induction false} UnrequestedIff(requests: seq<Request>, ids: seq<string>, id: string)
    ensures id in NotRequested(requests, ids) <==> id in ids && !Has(requests, id)
    decreases |ids|
  {
    if |ids| > 0 {
      var n := |ids| - 1;
      UnrequestedIff(requests, ids[..n], id);
      PrefixStep(ids, n);
      Whole(ids);
    }
  }

  lemma {:induction false} NoneLeft(requests: seq<Request>)
    ensures NotAccepted(requests) == [] <==> forall k :: 0 <= k < |requests| ==> requests[k].accepted
    ensures NotInS3(requests) == [] <==> forall k :: 0 <= k < |requests| ==> requests[k].available
    decreases |requests|
  {
    if |requests| > 0 {
      NoneLeft(requests[..|requests| - 1]);
    }
  }

  lemma {:induction false} NoneUnrequested(requests: seq<Request>, ids: seq<string>)
    ensures NotRequested(requests, ids) == [] <==> forall k :: 0 <= k < |ids| ==> Has(requests, ids[k])
    decreases |ids|
  {
    if |ids| > 0 {
      NoneUnrequested(requests, ids[..|ids| - 1]);
    }
  }

  class GlacierRestoreState {
    var requests: seq<Request>
    var summary: Summary
    var log: seq<Event>

    function View(): State
      reads this
    {
      State(requests, summary, log)
    }

    ghost predicate Valid()
      reads this
    {
      summary.Bounded()
    }

    constructor ()
      ensures View() == State([], FRESH, []) && Valid()
    {
      requests, summary, log := [], FRESH, [];
    }

    method FindRequest(id: string) returns (k: nat)
      ensures k == Find(requests, id)
    {
      k := 0;
      while k < |requests| && requests[k].id != id
        invariant k <= |requests| && Find(requests, id) == k + Find(requests[k..], id)
      {
        SuffixStep(requests, k);
        k := k + 1;
      }
    }

    method GetRequestRecord(id: string) returns (k: nat)
      modifies this`requests
      ensures requests == WithRecord(old(requests), id) && k == Find(requests, id)
    {
      k := FindRequest(id);
      if k == |requests| {
        requests := requests + [Request(id, false, false, false)];
        assert requests == WithRecord(old(requests), id);
        k := FindRequest(id);
      }
    }

    method RestoreRequestNeeded(id: string, a: Answer) returns (needed: bool, failed: bool)
      requires Valid()
      modifies this
      ensures Valid() && Checked(View(), needed, failed) == Check(old(View()), id, a)
    {
      if a.head.NoClient? || a.head.HeadFails? || a.head.NoInfo? {
        return false, true;
      }
      var k := FindRequest(id);
      if k == |requests| {
        if !a.details {
          summary := summary.WithError("no details");
          return true, true;
        }
        k := GetRequestRecord(id);
      }
      needed, failed := false, false;
      if a.head.InProgress? {
        requests := requests[k := Request(id, true, true, requests[k].available)];
      } else if a.head.Complete? {
        requests := requests[k := Request(id, true, true, true)];
        log := log + [SeenInS3(id)];
      } else {
        needed := true;
      }
    }

    method RequestFile(id: string, a: Answer)
      requires Valid()
      modifies this
      ensures Valid() && View() == Ask(old(View()), id, a)
    {
      if !a.details {
        summary := summary.WithError("no details");
        return;
      }
      var k := GetRequestRecord(id);
      if !requests[k].accepted {
        log := log + [Retrieval(id, a.response == Accepted)];
        if a.response == Refused {
          summary := summary.WithError("retrieval refused");
        }
        requests := requests[k := Request(id, a.response == Accepted, true, requests[k].available)];
      }
    }

    /** RequestObject, and with `single` the branch of RequestRestore for one file. */
    method HandleFile(id: string, a: Answer, single: bool)
      requires Valid()
      modifies this
      ensures Valid() && View() == Handle(old(View()), id, a, single)
    {
      var needed, failed := RestoreRequestNeeded(id, a);
      if failed {
        summary := summary.WithError("check failed");
      }
      if needed && (single || !failed) {
        RequestFile(id, a);
      }
    }

    method RequestFiles(ids: seq<string>, answers: seq<Answer>, single: bool)
      requires Valid() && |ids| == |answers|
      modifies this
      ensures Valid() && View() == HandleAll(old(View()), ids, answers, single)
    {
      var k := 0;
      while k < |ids|
        invariant k <= |ids| && Valid()
        invariant HandleAll(View(), ids[k..], answers[k..], single) == HandleAll(old(View()), ids, answers, single)
      {
        SuffixStep(ids, k);
        SuffixStep(answers, k);
        HandleFile(ids[k], answers[k], single);
        k := k + 1;
      }
    }

    /** The first loop of GetReport, over the records. */
    method SortRecords() returns (names: set<string>, notAccepted: seq<string>, notInS3: seq<string>)
      ensures forall id :: id in names <==> Has(requests, id)
      ensures notAccepted == NotAccepted(requests) && notInS3 == NotInS3(requests)
    {
      names, notAccepted, notInS3 := {}, [], [];
      for k := 0 to |requests|
        invariant forall id :: id in names <==> exists j :: 0 <= j < k && requests[j].id == id
        invariant notAccepted == NotAccepted(requests[..k]) && notInS3 == NotInS3(requests[..k])
      {
        PrefixStep(requests, k);
        names := names + {requests[k].id};
        if !requests[k].accepted {
          notAccepted := notAccepted + [requests[k].id];
        }
        if !requests[k].available {
          notInS3 := notInS3 + [requests[k].id];
        }
      }
      Whole(requests);
    }

    /** GetReport: the files not asked for, not accepted and not yet in S3, in order. */
    method GetReport(ids: seq<string>) returns (r: Report)
      ensures r == Report(|ids|, |requests|, NotRequested(requests, ids), NotAccepted(requests), NotInS3(requests))
      ensures r.notRequested == [] && r.notInS3 == [] <==> AllInS3(requests, ids)
      ensures r.notRequested == [] && r.notAccepted == [] <==> AllAccepted(requests, ids)
    {
      var names, notAccepted, notInS3 := SortRecords();
      var notRequested := [];
      for k := 0 to |ids|
        invariant notRequested == NotRequested(requests, ids[..k])
      {
        PrefixStep(ids, k);
        if ids[k] !in names {
          notRequested := notRequested + [ids[k]];
        }
      }
      Whole(ids);
      NoneLeft(requests);
      NoneUnrequested(requests, ids);
      r := Report(|ids|, |requests|, notRequested, notAccepted, notInS3);
    }

    method Cleanup(p: Pass, maxAttempts: nat) returns (decision: Decision)
      requires Valid() && (p.ids.None? ==> summary.HasErrors())
      modifies this`log
      ensures decision == Decide(old(View()), p, maxAttempts)
      ensures log == if decision.Ready? && !p.pending then old(log) + [RestoreCreated] else old(log)
    {
      if summary.HasErrors() {
        return FailedWithError;
      }
      var report := GetReport(p.ids.value);
      if report.notRequested == [] && report.notInS3 == [] {
        if !p.pending {
          log := log + [RestoreCreated];
        }
        return Ready;
      } else if summary.attemptNumber >= maxAttempts {
        return GivenUp;
      } else if report.notRequested == [] && report.notAccepted == [] {
        return PollLater;
      } else {
        return AskAgain;
      }
    }

    /** RequestRestore. */
    method MakeRequests(p: Pass, single: bool)
      requires Valid() && Fits(p)
      modifies this
      ensures Valid() && View() == RequestRestore(old(View()), p, single) && (p.ids.None? ==> summary.HasErrors())
    {
      summary := summary.Cleared().Begun();
      if p.ids.None? {
        summary := summary.WithError("Pharos error");
      } else {
        RequestFiles(p.ids.value, p.answers, single);
      }
    }

    /** A whole pass whose state is saved. */
    method Process(p: Pass, single: bool, maxAttempts: nat) returns (decision: Decision)
      requires Valid() && Fits(p) && p.saved
      modifies this
      ensures AfterPass(World(old(requests), old(summary), old(log), AskAgain), p, single, maxAttempts)
              == World(requests, summary, log, decision)
    {
      MakeRequests(p, single);
      ghost var s := View();
      decision := Cleanup(p, maxAttempts);
      assert decision == Decide(s, p, maxAttempts);
      summary := summary.Done();
    }
  }
}
