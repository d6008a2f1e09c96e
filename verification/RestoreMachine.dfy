/** The restorer's resume machine (workers/apt_restorer.go, models/restore_state.go): four
    stages with persisted summaries, and a decision on each delivery where to go on. */
module RestoreMachine {
  import opened Collections
  import opened WorkSummaries
  import opened Options

  /** What the world could observe of an item. Each tar file made has its own number. */
  datatype Event = Validated(tar: nat) | Uploaded(tar: nat) | Succeeded

  /** The error list of a validator's report, which its summary keeps within the cap. */
  type Report = e: seq<string> | |e| <= MAX_ERRORS witness []

  /** Packaging may fail before the tar file is named, on opening it, or half-way, which
      leaves a stump. */
  datatype PackageOutcome = FetchOrWriteFailed | TarFailed(stump: bool) | Packaged

  datatype ValidateOutcome = NoValidator | OpenError | Reported(errors: Report, fatal: bool)

  /** The answers an attempt gets from Pharos, the disk and the restoration bucket. */
  datatype Attempt = Attempt(loaded: bool, package: PackageOutcome, validate: ValidateOutcome, uploadOk: bool,
                             tarDeleted: bool, saved: bool)

  datatype Channel = PackageChannel | ValidateChannel | CopyChannel | PostProcessChannel

  datatype Verdict = Requeued | GivenUp | Success

  /** A RestoreState while a worker holds it, with the disk and the record of events. */
  datatype Item = Item(
    package: Summary, validate: Summary, copy: Summary, record: Summary,
    tarPath: bool, tar: Option<nat>, nextTar: nat, log: seq<Event>)
  {
    predicate HasErrors() {
      package.HasErrors() || validate.HasErrors() || record.HasErrors() || copy.HasErrors()
    }

    predicate HasFatalErrors() {
      package.errorIsFatal || validate.errorIsFatal || record.errorIsFatal || copy.errorIsFatal
    }

    predicate Bounded() {
      package.Bounded() && validate.Bounded() && copy.Bounded() && record.Bounded()
    }

    predicate TarExists() {
      tarPath && tar.Some?
    }
  }

  type State = s: Item | s.Bounded() witness Item(FRESH, FRESH, FRESH, FRESH, false, None, 0, [])

  predicate Clean(s: Summary) {
    s.finished && !s.HasErrors()
  }

  // ----- the stages -----

  /** HandleMessage: how far the last attempt got decides where this one goes on. */
  function Route(s: State): (out: (Channel, State))
    ensures out.1.log == s.log && out.1.tar == s.tar && out.1.nextTar == s.nextTar
  {
    if Clean(s.copy) then (PostProcessChannel, s.(record := s.record.Cleared()))
    else if Clean(s.validate) && s.TarExists() then (CopyChannel, s.(copy := s.copy.Cleared()))
    else if Clean(s.package) && s.TarExists() then (ValidateChannel, s.(validate := s.validate.Cleared()))
    else (PackageChannel, s.(package := s.package.Cleared()))
  }

  /** No tar file was made, or the next one. */
  predicate MakesTar(s: Item, r: Item) {
    (r.tar == s.tar && r.nextTar == s.nextTar) || (r.tar == Some(s.nextTar) && r.nextTar == s.nextTar + 1)
  }

  function BuildBag(s: State, o: PackageOutcome): (out: (Channel, State))
    ensures out.1.log == s.log && MakesTar(s, out.1)
  {
    var begun := s.(package := s.package.Begun());
    match o
    case FetchOrWriteFailed => (PostProcessChannel, begun.(package := begun.package.WithError("cannot package")))
    case TarFailed(stump) =>
      (PostProcessChannel,
       if stump then
         begun.(package := begun.package.WithError("cannot tar"), tarPath := true, tar := Some(s.nextTar),
                nextTar := s.nextTar + 1)
       else begun.(package := begun.package.WithError("cannot tar"), tarPath := true))
    case Packaged =>
      (ValidateChannel,
       begun.(package := begun.package.Done(), tarPath := true, tar := Some(s.nextTar), nextTar := s.nextTar + 1))
  }

  /** The summary a new validator returns: always its first attempt. */
  function ReportSummary(errors: Report, fatal: bool): (r: Summary)
    ensures r.Bounded()
  {
    FRESH.Begun().(errors := errors, errorIsFatal := fatal).Done()
  }

  /** An error that Validate itself returns goes into a summary nobody keeps. */
  function ValidateBag(s: State, o: ValidateOutcome): (out: (Channel, State))
    ensures s.log <= out.1.log && out.1.tar == s.tar && out.1.nextTar == s.nextTar
  {
    var begun := s.(validate := s.validate.Begun());
    var checked: State :=
      if o.NoValidator? || !s.TarExists() then begun.(validate := begun.validate.WithError("no validator"))
      else if o.OpenError? then begun
      else if |o.errors| > 0 then begun.(validate := ReportSummary(o.errors, o.fatal))
      else begun.(log := begun.log + [Validated(s.tar.value)]);
    var done: State := checked.(validate := checked.validate.Done());
    (if done.validate.HasErrors() then PostProcessChannel else CopyChannel, done)
  }

  function CopyBag(s: State, uploadOk: bool): (r: State)
    ensures s.log <= r.log && r.tar == s.tar && r.nextTar == s.nextTar
  {
    var begun := s.(copy := s.copy.Begun());
    if !s.TarExists() || !uploadOk then begun.(copy := begun.copy.WithError("cannot upload").Done())
    else begun.(copy := begun.copy.Done(), log := begun.log + [Uploaded(s.tar.value)])
  }

  datatype Which = ThePackage | TheValidate | TheCopy | TheRecord

  function MostRecent(s: Item): Which {
    if s.record.started then TheRecord
    else if s.copy.started then TheCopy
    else if s.validate.started then TheValidate
    else ThePackage
  }

  function Pick(s: Item, w: Which): Summary {
    match w
    case ThePackage => s.package
    case TheValidate => s.validate
    case TheCopy => s.copy
    case TheRecord => s.record
  }

  function Put(s: State, w: Which, x: Summary): (r: State)
    requires x.Bounded()
    ensures Pick(r, w) == x && forall v :: v != w ==> Pick(r, v) == Pick(s, v)
  {
    match w
    case ThePackage => s.(package := x)
    case TheValidate => s.(validate := x)
    case TheCopy => s.(copy := x)
    case TheRecord => s.(record := x)
  }

  function WithoutTar(s: State, deleted: bool): (r: State)
    ensures SameErrors(s, r) && r.tar == if s.TarExists() && deleted then None else s.tar
  {
    if s.TarExists() && deleted then s.(tar := None) else s
  }

  /** The same events and the same errors, in stages as finished as before. */
  predicate SameErrors(s: Item, r: Item) {
    && r.log == s.log && r.nextTar == s.nextTar && r.tarPath == s.tarPath
    && r.package.errors == s.package.errors && r.validate.errors == s.validate.errors && r.copy.errors == s.copy.errors
    && r.package.finished == s.package.finished && r.validate.finished == s.validate.finished
    && r.copy.finished == s.copy.finished
  }

  /** Too many attempts at the most recent stage are a fatal error of that stage. */
  function Judged(s: State, which: Which, maxAttempts: nat): (r: State)
    ensures SameErrors(s, r) && r.tar == s.tar
  {
    if Pick(s, which).attemptNumber > maxAttempts then Put(s, which, Pick(s, which).Fatal()) else s
  }

  /** A fatal error is recorded as the end of the item. */
  function Noted(s: State, which: Which): (r: State)
    ensures SameErrors(s, r) && r.tar == s.tar
  {
    if !s.HasFatalErrors() then s
    else
      var begun: State := s.(record := s.record.Begun());
      Put(begun, which, Pick(begun, which).(retry := false))
  }

  function Closed(s: State): (r: State)
    ensures SameErrors(s, r) && r.tar == s.tar
  {
    if s.HasFatalErrors() then s.(record := s.record.Done()) else s
  }

  /** Ending in an error changes no event and no error list, and deletes the tar file. */
  function FinishWithError(s: State, maxAttempts: nat, deleted: bool): (out: (Verdict, State))
    ensures SameErrors(s, out.1) && out.1.tar == if s.TarExists() && deleted then None else s.tar
  {
    var which := MostRecent(s);
    var r := Closed(Noted(WithoutTar(Judged(s, which, maxAttempts), deleted), which));
    (if Pick(r, which).errorIsFatal then GivenUp else Requeued, r)
  }

  function FinishWithSuccess(s: State, deleted: bool): State {
    WithoutTar(s, deleted).(record := s.record.Begun().Done(), log := s.log + [Succeeded])
  }

  function PostProcess(s: State, maxAttempts: nat, deleted: bool): (Verdict, State) {
    if s.HasErrors() then FinishWithError(s, maxAttempts, deleted) else (Success, FinishWithSuccess(s, deleted))
  }

  // ----- one delivery -----

  function AfterValidate(r: (Channel, State), a: Attempt): (out: State)
    ensures r.1.log <= out.log && out.tar == r.1.tar && out.nextTar == r.1.nextTar
  {
    if r.0.CopyChannel? then CopyBag(r.1, a.uploadOk) else r.1
  }

  function AfterPackage(r: (Channel, State), a: Attempt): (out: State)
    ensures r.1.log <= out.log && out.tar == r.1.tar && out.nextTar == r.1.nextTar
  {
    if r.0.ValidateChannel? then AfterValidate(ValidateBag(r.1, a.validate), a) else r.1
  }

  /** All the work of one delivery up to the post-process stage. */
  function Work(s: State, a: Attempt): (out: State)
    ensures s.log <= out.log && MakesTar(s, out)
  {
    var (channel, start) := Route(s);
    match channel
    case PostProcessChannel => start
    case CopyChannel => CopyBag(start, a.uploadOk)
    case ValidateChannel => AfterValidate(ValidateBag(start, a.validate), a)
    case PackageChannel => AfterPackage(BuildBag(start, a.package), a)
  }

  /** What Pharos keeps between deliveries, and what is on disk. */
  datatype World = World(saved: Option<State>, tar: Option<nat>, nextTar: nat, log: seq<Event>, verdict: Verdict)

  const START := World(None, None, 0, [], Requeued)

  /** The state a delivery starts with: the saved summaries, or new ones if there are none
      or they cannot be retrieved. */
  function Load(w: World, a: Attempt): State {
    if a.loaded && w.saved.Some? then w.saved.value.(tar := w.tar, nextTar := w.nextTar, log := w.log)
    else Item(FRESH, FRESH, FRESH, FRESH, false, w.tar, w.nextTar, w.log)
  }

  function Deliver(w: World, a: Attempt, maxAttempts: nat): World {
    var (verdict, s) := PostProcess(Work(Load(w, a), a), maxAttempts, a.tarDeleted);
    World(if a.saved then Some(s) else w.saved, s.tar, s.nextTar, s.log, verdict)
  }

  function Run(w: World, attempts: seq<Attempt>, maxAttempts: nat): World
    decreases |attempts|
  {
    if |attempts| == 0 then w else Run(Deliver(w, attempts[0], maxAttempts), attempts[1..], maxAttempts)
  }

  // ----- the events of one delivery -----

  predicate FoundValid(a: Attempt) {
    a.validate.Reported? && |a.validate.errors| == 0
  }

  predicate ToCopy(s: State) {
    Clean(s.validate) && s.TarExists()
  }

  predicate ToValidate(s: State) {
    !ToCopy(s) && Clean(s.package) && s.TarExists()
  }

  /** The tar file that a delivery works on: the one it finds, if it goes on with it, or else
      the one it would make. */
  function Target(s: State): nat {
    if ToCopy(s) || ToValidate(s) then s.tar.value else s.nextTar
  }

  /** The delivery finds its tar file valid. */
  predicate Validates(s: State, a: Attempt) {
    !Clean(s.copy) && !ToCopy(s) && FoundValid(a) && (ToValidate(s) || a.package.Packaged?)
  }

  /** The delivery uploads its tar file. */
  predicate Uploads(s: State, a: Attempt) {
    && !Clean(s.copy) && a.uploadOk
    && (|| ToCopy(s)
        || (&& (FoundValid(a) || a.validate.OpenError?)
            && (ToValidate(s) || (a.package.Packaged? && !s.validate.HasErrors()))))
  }

  function EventsOf(n: nat, v: bool, u: bool): seq<Event> {
    if v && u then [Validated(n), Uploaded(n)] else if v then [Validated(n)] else if u then [Uploaded(n)] else []
  }

  lemma ValidateLog(s: State, a: Attempt)
    requires s.TarExists()
    ensures AfterValidate(ValidateBag(s, a.validate), a).log ==
            s.log + EventsOf(s.tar.value, FoundValid(a),
                             (FoundValid(a) || a.validate.OpenError?) && !s.validate.HasErrors() && a.uploadOk)
  {
    Nothing(s.log);
    Assoc(s.log, [Validated(s.tar.value)], [Uploaded(s.tar.value)]);
    assert [Validated(s.tar.value)] + [Uploaded(s.tar.value)] == [Validated(s.tar.value), Uploaded(s.tar.value)];
  }

  /** What one delivery adds to the record of events, whatever it finds. */
  lemma WorkLog(s: State, a: Attempt)
    ensures Work(s, a).log == s.log + EventsOf(Target(s), Validates(s, a), Uploads(s, a))
  {
    var (channel, start) := Route(s);
    Nothing(s.log);
    if channel.ValidateChannel? {
      ValidateLog(start, a);
    } else if channel.PackageChannel? && a.package.Packaged? {
      ValidateLog(BuildBag(start, a.package).1, a);
    }
  }

  // ----- uploads are validated, success means upload -----

  /** Every upload comes after a clean validation of the same tar file, and every success
      after some upload. */
  predicate Honest(log: seq<Event>) {
    && (forall i :: 0 <= i < |log| && log[i].Uploaded? ==> Validated(log[i].tar) in log[..i])
    && (forall i :: 0 <= i < |log| && log[i].Succeeded? ==> exists j :: 0 <= j < i && log[j].Uploaded?)
  }

  predicate HasUpload(log: seq<Event>) {
    exists j :: 0 <= j < |log| && log[j].Uploaded?
  }

  /** No tar file is left over, and a copy stage on record as clean has uploaded. */
  predicate Settled(w: World) {
    w.tar.None? && Honest(w.log) && (w.saved.Some? && Clean(w.saved.value.copy) ==> HasUpload(w.log))
  }

  predicate Good(a: Attempt) {
    a.tarDeleted && !a.validate.OpenError?
  }

  lemma HonestAppend(log: seq<Event>, e: Event)
    requires Honest(log)
    requires e.Uploaded? ==> Validated(e.tar) in log
    requires e.Succeeded? ==> HasUpload(log)
    ensures Honest(log + [e])
    ensures HasUpload(log) || e.Uploaded? ==> HasUpload(log + [e])
  {
    var r := log + [e];
    Halves(log, [e]);
    forall i | 0 <= i < |r| && r[i].Uploaded? ensures Validated(r[i].tar) in r[..i] {
      if i < |log| {
        assert r[..i] == log[..i] && r[i] == log[i];
      } else {
        assert r[..i] == log;
      }
    }
    assert forall i :: 0 <= i < |log| ==> r[i] == log[i];
    assert e == r[|log|];
  }

  /** The work of a delivery that finds no tar file. */
  lemma EventsAreHonest(log: seq<Event>, n: nat, v: bool, u: bool)
    requires Honest(log) && (u ==> v)
    ensures Honest(log + EventsOf(n, v, u))
    ensures HasUpload(log) || u ==> HasUpload(log + EventsOf(n, v, u))
  {
    if u {
      HonestAppend(log, Validated(n));
      assert (log + [Validated(n)])[|log|] == Validated(n);
      HonestAppend(log + [Validated(n)], Uploaded(n));
      Assoc(log, [Validated(n)], [Uploaded(n)]);
      assert [Validated(n)] + [Uploaded(n)] == EventsOf(n, v, u);
    } else if v {
      HonestAppend(log, Validated(n));
    } else {
      Nothing(log);
    }
  }

  lemma ValidateEndsClean(s: State, a: Attempt)
    requires s.TarExists() && !Clean(s.copy)
    ensures var r := AfterValidate(ValidateBag(s, a.validate), a);
            && r.tarPath && (Clean(r.copy) || !r.HasErrors() ==>
                 (FoundValid(a) || a.validate.OpenError?) && !s.validate.HasErrors() && a.uploadOk)
  {
  }

  /** What else matters of the work of a delivery that finds no tar file. */
  lemma WorkEndsClean(s: State, a: Attempt)
    requires s.tar.None?
    ensures Clean(Work(s, a).copy) || !Work(s, a).HasErrors() ==> Clean(s.copy) || Uploads(s, a)
    ensures Work(s, a).tar.Some? ==> Work(s, a).tarPath
  {
    if !Clean(s.copy) && a.package.Packaged? {
      var (channel, start) := Route(s);
      var (next, built) := BuildBag(start, a.package);
      assert next.ValidateChannel? && built.TarExists() && built.validate == s.validate && built.copy == s.copy;
      ValidateEndsClean(built, a);
    }
  }

  /** The work of a delivery that finds no tar file. */
  lemma WorkIsHonest(s: State, a: Attempt)
    requires Honest(s.log) && s.tar.None? && !a.validate.OpenError?
    requires Clean(s.copy) ==> HasUpload(s.log)
    ensures var r := Work(s, a);
            && Honest(r.log)
            && (Clean(r.copy) || !r.HasErrors() ==> HasUpload(r.log))
            && (r.tar.Some? ==> r.tarPath)
  {
    WorkLog(s, a);
    EventsAreHonest(s.log, s.nextTar, Validates(s, a), Uploads(s, a));
    WorkEndsClean(s, a);
  }

  lemma PostProcessSettles(s: State, maxAttempts: nat)
    requires Honest(s.log) && (Clean(s.copy) || !s.HasErrors() ==> HasUpload(s.log)) && (s.tar.Some? ==> s.tarPath)
    ensures var r := PostProcess(s, maxAttempts, true).1;
            r.tar.None? && Honest(r.log) && (Clean(r.copy) ==> HasUpload(r.log)) &&
            (HasUpload(s.log) ==> HasUpload(r.log))
  {
    if s.HasErrors() {
      assert SameErrors(s, FinishWithError(s, maxAttempts, true).1);
    } else {
      HonestAppend(s.log, Succeeded);
    }
  }

  lemma UploadsStay(log: seq<Event>, later: seq<Event>)
    requires log <= later && HasUpload(log)
    ensures HasUpload(later)
  {
    var j :| 0 <= j < |log| && log[j].Uploaded?;
    assert later[j] == log[j];
  }

  lemma DeliveryKeepsSettled(w: World, a: Attempt, maxAttempts: nat)
    requires Settled(w) && Good(a)
    ensures Settled(Deliver(w, a, maxAttempts))
  {
    var s := Load(w, a);
    WorkIsHonest(s, a);
    if HasUpload(s.log) {
      UploadsStay(s.log, Work(s, a).log);
    }
    PostProcessSettles(Work(s, a), maxAttempts);
  }

  /** Over any number of deliveries, with any failures of Pharos, the network and the disk,
      as long as tar files can be deleted and Validate opens its database: an upload is
      always of a tar file that passed validation, and success always follows an upload. */
  lemma {:induction false} UploadsAreValidated(w: World, attempts: seq<Attempt>, maxAttempts: nat)
    requires Settled(w)
    requires forall i :: 0 <= i < |attempts| ==> Good(attempts[i])
    ensures Settled(Run(w, attempts, maxAttempts))
    decreases |attempts|
  {
    if |attempts| > 0 {
      DeliveryKeepsSettled(w, attempts[0], maxAttempts);
      UploadsAreValidated(Deliver(w, attempts[0], maxAttempts), attempts[1..], maxAttempts);
    }
  }

  // ----- where the guarantee ends -----

  /** The entry at `i` uploads a tar file that no earlier entry found valid. */
  predicate IsLeak(log: seq<Event>, i: nat)
    requires i < |log|
  {
    log[i].Uploaded? && Validated(log[i].tar) !in log[..i]
  }

  /** A delivery sends out a tar file unvalidated: one it finds, with a clean validation of
      some other tar file on record; one it finds or makes, when Validate cannot open its
      database. */
  predicate Leaks(s: State, a: Attempt) {
    && !Clean(s.copy) && a.uploadOk
    && if ToCopy(s) then Validated(s.tar.value) !in s.log
       else if ToValidate(s) then a.validate.OpenError? && Validated(s.tar.value) !in s.log
       else a.package.Packaged? && a.validate.OpenError? && !s.validate.HasErrors()
  }

  lemma LeakOf(log: seq<Event>, n: nat, v: bool, u: bool)
    ensures var r := log + EventsOf(n, v, u);
            (exists i :: |log| <= i < |r| && IsLeak(r, i)) <==> u && !v && Validated(n) !in log
  {
    var r := log + EventsOf(n, v, u);
    if v && u {
      assert r[|log|] == Validated(n) && r[|log|] in r[..|log| + 1] && r[|log| + 1] == Uploaded(n);
    } else if v {
      assert r[|log|] == Validated(n);
    } else if u {
      assert r[|log|] == Uploaded(n) && r[..|log|] == log;
      assert IsLeak(r, |log|) <==> Validated(n) !in log;
    }
  }

  /** In every state, a delivery uploads a tar file that was not found valid before, by it or
      by an earlier one, exactly when it leaks. */
  lemma UnvalidatedUpload(s: State, a: Attempt)
    requires Validated(s.nextTar) !in s.log
    ensures (exists i :: |s.log| <= i < |Work(s, a).log| && IsLeak(Work(s, a).log, i)) <==> Leaks(s, a)
  {
    WorkLog(s, a);
    LeakOf(s.log, Target(s), Validates(s, a), Uploads(s, a));
  }

  // ----- the same over whole runs -----

  predicate NoLeakIn(log: seq<Event>) {
    forall i :: 0 <= i < |log| ==> !IsLeak(log, i)
  }

  /** Tar files are numbered in the order they are made. */
  predicate Numbered(tar: Option<nat>, nextTar: nat, log: seq<Event>) {
    (tar.Some? ==> tar.value < nextTar) && forall i :: 0 <= i < |log| && log[i].Validated? ==> log[i].tar < nextTar
  }

  lemma NumberedAppend(tar: Option<nat>, nextTar: nat, log: seq<Event>, n: nat, v: bool, u: bool)
    requires Numbered(tar, nextTar, log) && (v ==> n < nextTar)
    ensures Numbered(tar, nextTar, log + EventsOf(n, v, u))
  {
  }

  lemma ValidatesNumbered(s: State, a: Attempt)
    requires s.tar.Some? ==> s.tar.value < s.nextTar
    ensures Validates(s, a) ==> Target(s) < Work(s, a).nextTar
  {
    if Validates(s, a) && !ToValidate(s) {
      assert BuildBag(Route(s).1, a.package).1.nextTar == s.nextTar + 1;
    }
  }

  lemma WorkNumbers(s: State, a: Attempt)
    requires Numbered(s.tar, s.nextTar, s.log)
    ensures var r := Work(s, a); Numbered(r.tar, r.nextTar, r.log)
  {
    WorkLog(s, a);
    ValidatesNumbered(s, a);
    var r := Work(s, a);
    assert Numbered(r.tar, r.nextTar, s.log);
    NumberedAppend(r.tar, r.nextTar, s.log, Target(s), Validates(s, a), Uploads(s, a));
  }

  lemma DeliverNumbers(w: World, a: Attempt, maxAttempts: nat)
    requires Numbered(w.tar, w.nextTar, w.log)
    ensures var v := Deliver(w, a, maxAttempts);
            && Numbered(v.tar, v.nextTar, v.log)
            && (v.log == Work(Load(w, a), a).log || v.log == Work(Load(w, a), a).log + [Succeeded])
  {
    WorkNumbers(Load(w, a), a);
    var r := Work(Load(w, a), a);
    if r.HasErrors() {
      assert SameErrors(r, FinishWithError(r, maxAttempts, a.tarDeleted).1);
    }
  }

  lemma NoLeakPrefix(log: seq<Event>, longer: seq<Event>)
    requires log <= longer
    ensures NoLeakIn(longer) <==> NoLeakIn(log) && forall i :: |log| <= i < |longer| ==> !IsLeak(longer, i)
  {
    assert forall i :: 0 <= i < |log| ==> longer[i] == log[i] && longer[..i] == log[..i];
    assert forall i :: 0 <= i < |log| ==> IsLeak(longer, i) == IsLeak(log, i);
  }

  lemma DeliveryLeaks(w: World, a: Attempt, maxAttempts: nat)
    requires Numbered(w.tar, w.nextTar, w.log)
    ensures NoLeakIn(Deliver(w, a, maxAttempts).log) <==> NoLeakIn(w.log) && !Leaks(Load(w, a), a)
    ensures Numbered(Deliver(w, a, maxAttempts).tar, Deliver(w, a, maxAttempts).nextTar, Deliver(w, a, maxAttempts).log)
  {
    var s, log := Load(w, a), Work(Load(w, a), a).log;
    DeliverNumbers(w, a, maxAttempts);
    UnvalidatedUpload(s, a);
    NoLeakPrefix(w.log, log);
    NoLeakPrefix(log, log + [Succeeded]);
    assert (log + [Succeeded])[|log|] == Succeeded;
  }

  /** Some delivery of the run leaks. */
  predicate RunLeaks(w: World, attempts: seq<Attempt>, maxAttempts: nat)
    decreases |attempts|
  {
    |attempts| > 0 &&
    (Leaks(Load(w, attempts[0]), attempts[0]) ||
     RunLeaks(Deliver(w, attempts[0], maxAttempts), attempts[1..], maxAttempts))
  }

  /** Over any deliveries, whatever fails: every upload comes after a clean validation of the
      same tar file if and only if no delivery leaks. */
  lemma {:induction false} RunIsValidatedIff(w: World, attempts: seq<Attempt>, maxAttempts: nat)
    requires Numbered(w.tar, w.nextTar, w.log)
    ensures NoLeakIn(Run(w, attempts, maxAttempts).log) <==> NoLeakIn(w.log) && !RunLeaks(w, attempts, maxAttempts)
    decreases |attempts|
  {
    if |attempts| > 0 {
      DeliveryLeaks(w, attempts[0], maxAttempts);
      RunIsValidatedIff(Deliver(w, attempts[0], maxAttempts), attempts[1..], maxAttempts);
    }
  }

  // ----- a validator that tells the truth -----

  /** The delivery comes to validate its tar file. */
  predicate Judges(s: State, a: Attempt) {
    !Clean(s.copy) && !ToCopy(s) && (ToValidate(s) || a.package.Packaged?)
  }

  /** Whenever a tar file is judged and the report has no error, the tar file is one of the
      valid ones. A valid one may well be reported for other reasons. */
  ghost predicate TruthfulRun(w: World, attempts: seq<Attempt>, maxAttempts: nat, valid: iset<nat>)
    decreases |attempts|
  {
    |attempts| == 0 ||
    var s, a := Load(w, attempts[0]), attempts[0];
    && (Judges(s, a) && a.validate.Reported? ==> (|a.validate.errors| == 0 ==> Target(s) in valid))
    && TruthfulRun(Deliver(w, a, maxAttempts), attempts[1..], maxAttempts, valid)
  }

  ghost predicate ValidatedAre(log: seq<Event>, valid: iset<nat>) {
    forall i :: 0 <= i < |log| && log[i].Validated? ==> log[i].tar in valid
  }

  lemma ValidatedAppend(log: seq<Event>, n: nat, v: bool, u: bool, valid: iset<nat>)
    requires ValidatedAre(log, valid) && (v ==> n in valid)
    ensures ValidatedAre(log + EventsOf(n, v, u), valid)
    ensures ValidatedAre(log + EventsOf(n, v, u) + [Succeeded], valid)
  {
  }

  /** In every run with a validator that passes only valid tar files, only valid tar files are found valid. */
  lemma {:induction false} RunValidatesOnlyValid(w: World, attempts: seq<Attempt>, maxAttempts: nat, valid: iset<nat>)
    requires ValidatedAre(w.log, valid) && Numbered(w.tar, w.nextTar, w.log) &&
             TruthfulRun(w, attempts, maxAttempts, valid)
    ensures ValidatedAre(Run(w, attempts, maxAttempts).log, valid)
    decreases |attempts|
  {
    if |attempts| > 0 {
      var s, a := Load(w, attempts[0]), attempts[0];
      WorkLog(s, a);
      ValidatedAppend(s.log, Target(s), Validates(s, a), Uploads(s, a), valid);
      DeliverNumbers(w, a, maxAttempts);
      RunValidatesOnlyValid(Deliver(w, a, maxAttempts), attempts[1..], maxAttempts, valid);
    }
  }

  lemma UploadedIsValid(log: seq<Event>, i: nat, valid: iset<nat>)
    requires ValidatedAre(log, valid) && i < |log| && log[i].Uploaded? && !IsLeak(log, i)
    ensures log[i].tar in valid
  {
    var j :| 0 <= j < i && log[..i][j] == Validated(log[i].tar);
    assert log[j] == Validated(log[i].tar);
  }

  /** A delivery that finds a tar file, and on record a clean validation and no clean copy,
      uploads that tar file as it is, whichever tar file the validation was of. */
  lemma LeftoverTarIsUploaded(s: State, a: Attempt)
    requires s.TarExists() && Clean(s.validate) && !Clean(s.copy) && a.uploadOk
    ensures Work(s, a).log == s.log + [Uploaded(s.tar.value)]
  {
  }

  const UPLOAD_FAILS := Attempt(true, Packaged, Reported([], false), false, true, true)
  const TAR_AND_DELETION_FAIL := Attempt(true, TarFailed(true), Reported([], false), false, false, true)
  const ALL_WELL := Attempt(true, Packaged, Reported([], false), true, true, true)

  lemma FirstUploadFails(maxAttempts: nat)
    ensures var w := Deliver(START, UPLOAD_FAILS, maxAttempts);
            && w.log == [Validated(0)] && w.tar.None? && w.nextTar == 1
            && w.saved.Some? && Clean(w.saved.value.validate) && w.saved.value.copy.HasErrors()
  {
    var s := Load(START, UPLOAD_FAILS);
    var r := Work(s, UPLOAD_FAILS);
    assert r.log == [Validated(0)] && r.copy.HasErrors() && Clean(r.validate) && r.TarExists();
  }

  lemma ThenTarFails(w: World, maxAttempts: nat)
    requires w.tar.None? && w.saved.Some? && Clean(w.saved.value.validate) && w.saved.value.copy.HasErrors()
    ensures var v := Deliver(w, TAR_AND_DELETION_FAIL, maxAttempts);
            && v.log == w.log && v.tar == Some(w.nextTar)
            && v.saved.Some? && Clean(v.saved.value.validate) && v.saved.value.copy.HasErrors() && v.saved.value.tarPath
  {
    var s := Load(w, TAR_AND_DELETION_FAIL);
    var r := Work(s, TAR_AND_DELETION_FAIL);
    assert r.log == w.log && r.tar == Some(w.nextTar) && r.tarPath && r.copy == s.copy && r.validate == s.validate;
  }

  lemma StumpIsLeft(maxAttempts: nat)
    ensures var w := Deliver(Deliver(START, UPLOAD_FAILS, maxAttempts), TAR_AND_DELETION_FAIL, maxAttempts);
            && w.log == [Validated(0)] && w.tar == Some(1)
            && w.saved.Some? && Clean(w.saved.value.validate) && w.saved.value.copy.HasErrors() && w.saved.value.tarPath
  {
    FirstUploadFails(maxAttempts);
    ThenTarFails(Deliver(START, UPLOAD_FAILS, maxAttempts), maxAttempts);
  }

  lemma StumpIsUploaded(w: World)
    requires w.log == [Validated(0)] && w.tar == Some(1)
    requires w.saved.Some? && Clean(w.saved.value.validate) && w.saved.value.copy.HasErrors() && w.saved.value.tarPath
    ensures Work(Load(w, ALL_WELL), ALL_WELL).log == [Validated(0), Uploaded(1)]
  {
    LeftoverTarIsUploaded(Load(w, ALL_WELL), ALL_WELL);
  }

  /** If one deletion fails, a half-written tar file can go out on the strength of an earlier
      tar file's validation: here the second tar file, which was never validated. */
  lemma FailedDeletionUploadsStump(maxAttempts: nat)
    ensures var w := Deliver(Deliver(START, UPLOAD_FAILS, maxAttempts), TAR_AND_DELETION_FAIL, maxAttempts);
            Work(Load(w, ALL_WELL), ALL_WELL).log == [Validated(0), Uploaded(1)]
  {
    StumpIsLeft(maxAttempts);
    StumpIsUploaded(Deliver(Deliver(START, UPLOAD_FAILS, maxAttempts), TAR_AND_DELETION_FAIL, maxAttempts));
  }

  // ----- recorded validation and copy errors stay -----

  /** A validation or copy error is on record, so the copy stage is not clean. */
  predicate Stuck(s: Item) {
    (s.validate.HasErrors() || s.copy.HasErrors()) && !Clean(s.copy)
  }

  predicate StuckWorld(w: World) {
    w.tar.None? && w.saved.Some? && Stuck(w.saved.value)
  }

  /** Pharos returns the summaries, whether or not it will save them, and the tar file is
      deleted. */
  predicate Kept(a: Attempt) {
    a.loaded && a.tarDeleted
  }

  lemma StuckThroughValidation(s: State, a: Attempt)
    requires Stuck(s) && s.TarExists()
    ensures var r := AfterValidate(ValidateBag(s, a.validate), a); Stuck(r) && r.HasErrors() && r.tarPath
  {
    var (then_, checked) := ValidateBag(s, a.validate);
    assert s.validate.HasErrors() ==> checked.validate.HasErrors();
    assert checked.copy == s.copy;
  }

  lemma StuckStaysInWork(s: State, a: Attempt)
    requires s.tar.None? && Stuck(s)
    ensures Stuck(Work(s, a)) && Work(s, a).HasErrors()
    ensures Work(s, a).tar.Some? ==> Work(s, a).tarPath
    ensures Route(s).0.PackageChannel?
  {
    var (channel, start) := Route(s);
    var (next, built) := BuildBag(start, a.package);
    assert Stuck(built);
    if next.ValidateChannel? {
      StuckThroughValidation(built, a);
    }
  }

  lemma StuckStays(w: World, a: Attempt, maxAttempts: nat)
    requires StuckWorld(w) && Kept(a)
    ensures StuckWorld(Deliver(w, a, maxAttempts)) && Deliver(w, a, maxAttempts).verdict != Success
  {
    var s := Load(w, a);
    StuckStaysInWork(s, a);
    var r := Work(s, a);
    assert SameErrors(r, FinishWithError(r, maxAttempts, true).1);
  }

  lemma RunFirst(w: World, attempts: seq<Attempt>, i: nat, maxAttempts: nat)
    requires 0 < i <= |attempts|
    ensures Run(w, attempts[..i], maxAttempts) ==
            Run(Deliver(w, attempts[0], maxAttempts), attempts[1..][..i - 1], maxAttempts)
  {
    assert attempts[..i][1..] == attempts[1..][..i - 1];
  }

  /** Once a validation or copy error is saved, every further delivery packages the bag anew,
      and none ever succeeds, however well each stage goes. */
  lemma {:induction false} RetriesNeverSucceed(w: World, attempts: seq<Attempt>, maxAttempts: nat)
    requires StuckWorld(w)
    requires forall i :: 0 <= i < |attempts| ==> Kept(attempts[i])
    ensures StuckWorld(Run(w, attempts, maxAttempts))
    ensures forall i :: 0 < i <= |attempts| ==> Run(w, attempts[..i], maxAttempts).verdict != Success
    decreases |attempts|
  {
    if |attempts| > 0 {
      var v := Deliver(w, attempts[0], maxAttempts);
      StuckStays(w, attempts[0], maxAttempts);
      RetriesNeverSucceed(v, attempts[1..], maxAttempts);
      forall i | 0 < i <= |attempts| ensures Run(w, attempts[..i], maxAttempts).verdict != Success {
        RunFirst(w, attempts, i, maxAttempts);
        if i == 1 {
          Whole(attempts[1..]);
        }
      }
    }
  }

  // ----- how often the restorer tries -----

  /** Neither validated, copied nor finished, and nothing fatal. */
  predicate EarlyDays(s: Item) {
    && !Clean(s.validate) && !s.copy.started && !s.record.started && !s.copy.finished
    && !s.HasFatalErrors() && !s.copy.HasErrors() && !s.record.HasErrors()
  }

  predicate EarlyWorld(w: World) {
    w.saved.Some? ==> EarlyDays(w.saved.value)
  }

  /** The bag is packaged and fails validation for some reason that is not fatal. */
  predicate FailsValidation(a: Attempt) {
    a.package.Packaged? && a.validate.Reported? && |a.validate.errors| > 0 && !a.validate.fatal
  }

  /** Without a fatal error and within the limit, an error only deletes the tar file. */
  lemma PlainErrorIsRequeued(s: State, maxAttempts: nat, deleted: bool)
    requires !s.HasFatalErrors() && Pick(s, MostRecent(s)).attemptNumber <= maxAttempts
    ensures FinishWithError(s, maxAttempts, deleted) == (Requeued, WithoutTar(s, deleted))
  {
  }

  lemma ReportReplacesSummary(s: State, a: Attempt)
    requires s.TarExists() && FailsValidation(a)
    ensures AfterValidate(ValidateBag(s, a.validate), a) == s.(validate := ReportSummary(a.validate.errors, false))
  {
  }

  lemma WorkFailsValidation(s: State, a: Attempt)
    requires EarlyDays(s) && FailsValidation(a)
    ensures EarlyDays(Work(s, a)) && Work(s, a).validate == ReportSummary(a.validate.errors, false)
  {
    var (channel, start) := Route(s);
    if channel.ValidateChannel? {
      ReportReplacesSummary(start, a);
    } else {
      assert channel.PackageChannel?;
      ReportReplacesSummary(BuildBag(start, Packaged).1, a);
    }
  }

  lemma ReportedErrorEnds(s: State, maxAttempts: nat, deleted: bool)
    requires EarlyDays(s) && s.validate.HasErrors() && s.validate.started && s.validate.attemptNumber == 1
    ensures maxAttempts >= 1 ==> PostProcess(s, maxAttempts, deleted) == (Requeued, WithoutTar(s, deleted))
    ensures maxAttempts == 0 ==> PostProcess(s, maxAttempts, deleted).0.GivenUp?
  {
    assert MostRecent(s) == TheValidate;
    if maxAttempts >= 1 {
      PlainErrorIsRequeued(s, maxAttempts, deleted);
    }
  }

  lemma ValidationFailsAgain(w: World, a: Attempt, maxAttempts: nat)
    requires EarlyWorld(w) && FailsValidation(a)
    ensures maxAttempts >= 1 ==> EarlyWorld(Deliver(w, a, maxAttempts)) && Deliver(w, a, maxAttempts).verdict.Requeued?
    ensures maxAttempts == 0 ==> Deliver(w, a, maxAttempts).verdict.GivenUp?
  {
    var s := Load(w, a);
    WorkFailsValidation(s, a);
    ReportedErrorEnds(Work(s, a), maxAttempts, a.tarDeleted);
  }

  /** A bag that fails validation at every delivery, for whatever reasons, is requeued every
      time, if and only if the limit is at least one: the report of a new validator counts as
      the first attempt. */
  lemma {:induction false} FailingValidationIsRequeuedForever(w: World, attempts: seq<Attempt>, maxAttempts: nat)
    requires EarlyWorld(w) && |attempts| > 0 && forall i :: 0 <= i < |attempts| ==> FailsValidation(attempts[i])
    ensures (forall i :: 0 < i <= |attempts| ==> Run(w, attempts[..i], maxAttempts).verdict.Requeued?) <==>
            maxAttempts >= 1
    decreases |attempts|
  {
    var v := Deliver(w, attempts[0], maxAttempts);
    ValidationFailsAgain(w, attempts[0], maxAttempts);
    RunFirst(w, attempts, 1, maxAttempts);
    assert attempts[1..][..0] == [] && Run(v, [], maxAttempts) == v;
    if maxAttempts >= 1 {
      if |attempts| > 1 {
        FailingValidationIsRequeuedForever(v, attempts[1..], maxAttempts);
      }
      forall i | 0 < i <= |attempts| ensures Run(w, attempts[..i], maxAttempts).verdict.Requeued? {
        RunFirst(w, attempts, i, maxAttempts);
      }
    } else {
      assert !Run(w, attempts[..1], maxAttempts).verdict.Requeued?;
    }
  }

  /** Packaging fails in any of its ways, and the state is loaded and saved. */
  predicate FailsPackaging(a: Attempt) {
    a.loaded && a.saved && !a.package.Packaged?
  }

  /** Packaging has failed `n` times and nothing later has been tried. */
  predicate FailingPackaging(w: World, n: nat) {
    if n == 0 then w.saved.None?
    else
      w.saved.Some? && FailedPackaging(w.saved.value, n)
  }

  /** A state in which packaging has failed so often. */
  predicate FailedPackaging(s: Item, n: nat) {
    s.package.attemptNumber == n && (n > 0 ==> s.package.HasErrors()) && !s.validate.started && !s.validate.finished &&
    !s.validate.HasErrors() && EarlyDays(s)
  }

  lemma WorkFailsPackaging(s: State, a: Attempt, n: nat)
    requires FailedPackaging(s, n) && !a.package.Packaged? && n < 0xFFFF && !Clean(s.package)
    ensures FailedPackaging(Work(s, a), n + 1)
  {
    var (channel, start) := Route(s);
    assert channel.PackageChannel?;
    assert Work(s, a) == BuildBag(start, a.package).1;
  }

  lemma FailedPackagingEnds(s: State, n: nat, maxAttempts: nat, deleted: bool)
    requires FailedPackaging(s, n) && n > 0
    ensures n <= maxAttempts ==> PostProcess(s, maxAttempts, deleted) == (Requeued, WithoutTar(s, deleted))
    ensures n > maxAttempts ==> PostProcess(s, maxAttempts, deleted).0.GivenUp?
  {
    assert MostRecent(s) == ThePackage;
    if n <= maxAttempts {
      PlainErrorIsRequeued(s, maxAttempts, deleted);
    }
  }

  lemma PackagingFailsAgain(w: World, a: Attempt, n: nat, maxAttempts: nat)
    requires FailsPackaging(a) && FailingPackaging(w, n) && n <= maxAttempts < 0xFFFF
    ensures n < maxAttempts ==>
              FailingPackaging(Deliver(w, a, maxAttempts), n + 1) && Deliver(w, a, maxAttempts).verdict.Requeued?
    ensures n == maxAttempts ==> Deliver(w, a, maxAttempts).verdict.GivenUp?
  {
    var s := Load(w, a);
    WorkFailsPackaging(s, a, n);
    FailedPackagingEnds(Work(s, a), n + 1, maxAttempts, a.tarDeleted);
  }

  /** Packaging that fails every time, in whatever ways, is requeued until the attempt number
      passes the limit, and given up then. */
  lemma {:induction false} FailingPackagingIsGivenUp(w: World, attempts: seq<Attempt>, n: nat, maxAttempts: nat)
    requires FailingPackaging(w, n) && maxAttempts < 0xFFFF && 0 < |attempts| <= maxAttempts + 1 - n
    requires forall i :: 0 <= i < |attempts| ==> FailsPackaging(attempts[i])
    ensures Run(w, attempts, maxAttempts).verdict == if n + |attempts| > maxAttempts then GivenUp else Requeued
    decreases |attempts|
  {
    PackagingFailsAgain(w, attempts[0], n, maxAttempts);
    var v := Deliver(w, attempts[0], maxAttempts);
    if |attempts| > 1 {
      FailingPackagingIsGivenUp(v, attempts[1..], n + 1, maxAttempts);
    } else {
      assert attempts[1..] == [] && Run(v, [], maxAttempts) == v;
    }
  }

  // ----- the worker -----

  /** A RestoreState in the hands of the stage workers, which pass it on from channel to
      channel. */
  class RestoreWorker {
    var package: Summary
    var validate: Summary
    var copy: Summary
    var record: Summary
    var tarPath: bool
    var tar: Option<nat>
    var nextTar: nat
    var log: seq<Event>

    function View(): Item
      reads this
    {
      Item(package, validate, copy, record, tarPath, tar, nextTar, log)
    }

    constructor (s: State)
      ensures View() == s
    {
      package, validate, copy, record := s.package, s.validate, s.copy, s.record;
      tarPath, tar, nextTar, log := s.tarPath, s.tar, s.nextTar, s.log;
    }

    method Enter() returns (channel: Channel)
      requires View().Bounded()
      modifies this
      ensures (channel, View()) == Route(old(View()))
    {
      if Clean(copy) {
        record := record.Cleared();
        channel := PostProcessChannel;
      } else if Clean(validate) && tarPath && tar.Some? {
        copy := copy.Cleared();
        channel := CopyChannel;
      } else if Clean(package) && tarPath && tar.Some? {
        validate := validate.Cleared();
        channel := ValidateChannel;
      } else {
        package := package.Cleared();
        channel := PackageChannel;
      }
    }

    method Package(o: PackageOutcome) returns (channel: Channel)
      requires View().Bounded()
      modifies this
      ensures (channel, View()) == BuildBag(old(View()), o)
    {
      package := package.Begun();
      if o.FetchOrWriteFailed? {
        package := package.WithError("cannot package");
        return PostProcessChannel;
      }
      tarPath := true;
      if o.Packaged? || o.stump {
        tar, nextTar := Some(nextTar), nextTar + 1;
      }
      if o.TarFailed? {
        package := package.WithError("cannot tar");
        return PostProcessChannel;
      }
      package := package.Done();
      channel := ValidateChannel;
    }

    method Validate(o: ValidateOutcome) returns (channel: Channel)
      requires View().Bounded()
      modifies this
      ensures (channel, View()) == ValidateBag(old(View()), o)
    {
      validate := validate.Begun();
      if o.NoValidator? || !(tarPath && tar.Some?) {
        validate := validate.WithError("no validator");
      } else if o.Reported? {
        if |o.errors| > 0 {
          validate := ReportSummary(o.errors, o.fatal);
        } else {
          log := log + [Validated(tar.value)];
        }
      }
      validate := validate.Done();
      channel := if validate.HasErrors() then PostProcessChannel else CopyChannel;
    }

    method CopyToRestorationBucket(uploadOk: bool) returns (channel: Channel)
      requires View().Bounded()
      modifies this
      ensures channel == PostProcessChannel && View() == CopyBag(old(View()), uploadOk)
    {
      copy := copy.Begun();
      if tarPath && tar.Some? && uploadOk {
        log := log + [Uploaded(tar.value)];
      } else {
        copy := copy.WithError("cannot upload");
      }
      copy := copy.Done();
      channel := PostProcessChannel;
    }

    /** The stages of one delivery, as the channels link them. */
    method Process(a: Attempt)
      requires View().Bounded()
      modifies this
      ensures View().Bounded() && View() == Work(old(View()), a)
    {
      var channel := Enter();
      if channel.PackageChannel? {
        channel := Package(a.package);
      }
      if channel.ValidateChannel? {
        channel := Validate(a.validate);
      }
      if channel.CopyChannel? {
        channel := CopyToRestorationBucket(a.uploadOk);
      }
    }
  }
}
