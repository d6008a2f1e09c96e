/** What a delivery of a restoration comes to (workers/apt_restorer.go): which stages it runs,
    what it leaves on record of each, and its verdict, in terms of the state it finds and the
    answers it gets. */
module RestoreVerdicts {
  import opened Options
  import opened Collections
  import opened WorkSummaries
  import opened RestoreMachine

  // ----- which stages run -----

  predicate RunsPackage(s: State) {
    !Clean(s.copy) && !ToCopy(s) && !ToValidate(s)
  }

  predicate RunsValidate(s: State, a: Attempt) {
    !Clean(s.copy) && !ToCopy(s) && (ToValidate(s) || a.package.Packaged?)
  }

  /** The errors of an earlier validation are cleared only if the delivery starts with it. */
  predicate Passes(s: State, a: Attempt) {
    (FoundValid(a) || a.validate.OpenError?) && (ToValidate(s) || !s.validate.HasErrors())
  }

  predicate RunsCopy(s: State, a: Attempt) {
    !Clean(s.copy) && (ToCopy(s) || (RunsValidate(s, a) && Passes(s, a)))
  }

  // ----- what is left on record of each stage -----

  datatype Facts = Facts(errors: bool, fatal: bool, number: nat, attempted: bool, started: bool, finished: bool,
                         retry: bool)

  function FactsOf(s: Summary): Facts {
    Facts(s.HasErrors(), s.errorIsFatal, s.attemptNumber, s.attempted, s.started, s.finished, s.retry)
  }

  /** What a stage that was run leaves on record. */
  function Ran(before: Summary, errors: bool, fatal: bool, finished: bool): Facts {
    Facts(errors, fatal, Next(before.attemptNumber), true, true, finished, before.retry)
  }

  const REPORTED := Facts(true, false, 1, true, true, true, true)

  predicate ReportsErrors(a: Attempt) {
    a.validate.Reported? && |a.validate.errors| > 0
  }

  function PackageFacts(s: State, a: Attempt): Facts {
    if !RunsPackage(s) then FactsOf(s.package)
    else Ran(s.package, !a.package.Packaged?, false, a.package.Packaged? || s.package.finished)
  }

  /** A report with errors replaces the summary, and with it the number of attempts. */
  function ValidateFacts(s: State, a: Attempt): Facts {
    if !RunsValidate(s, a) then FactsOf(s.validate)
    else if ReportsErrors(a) then REPORTED.(fatal := a.validate.fatal)
    else Ran(s.validate, a.validate.NoValidator? || (!ToValidate(s) && s.validate.HasErrors()),
             !ToValidate(s) && s.validate.errorIsFatal, true)
  }

  function CopyFacts(s: State, a: Attempt): Facts {
    if !RunsCopy(s, a) then FactsOf(s.copy)
    else Ran(s.copy, !a.uploadOk || (!ToCopy(s) && s.copy.HasErrors()), !ToCopy(s) && s.copy.errorIsFatal, true)
  }

  function RecordFacts(s: State): Facts {
    if Clean(s.copy) then FactsOf(s.record).(errors := false, fatal := false) else FactsOf(s.record)
  }

  function FactsAfter(s: State, a: Attempt, which: Which): Facts {
    match which
    case ThePackage => PackageFacts(s, a)
    case TheValidate => ValidateFacts(s, a)
    case TheCopy => CopyFacts(s, a)
    case TheRecord => RecordFacts(s)
  }

  lemma ValidationFacts(s: State, a: Attempt)
    requires s.TarExists()
    ensures var r := AfterValidate(ValidateBag(s, a.validate), a);
            var passes := (FoundValid(a) || a.validate.OpenError?) && !s.validate.HasErrors();
            && r.package == s.package && r.record == s.record
            && FactsOf(r.validate) ==
               (if ReportsErrors(a) then REPORTED.(fatal := a.validate.fatal)
                else Ran(s.validate, a.validate.NoValidator? || s.validate.HasErrors(), s.validate.errorIsFatal, true))
            && FactsOf(r.copy) ==
               (if !passes then FactsOf(s.copy)
                else Ran(s.copy, !a.uploadOk || s.copy.HasErrors(), s.copy.errorIsFatal, true))
  {
  }

  lemma CopyRoute(s: State, a: Attempt, which: Which)
    requires Clean(s.copy) || ToCopy(s)
    ensures FactsOf(Pick(Work(s, a), which)) == FactsAfter(s, a, which)
  {
  }

  lemma ValidateRoute(s: State, a: Attempt, which: Which)
    requires !Clean(s.copy) && ToValidate(s)
    ensures FactsOf(Pick(Work(s, a), which)) == FactsAfter(s, a, which)
  {
    var start: State := s.(validate := s.validate.Cleared());
    ValidationFacts(start, a);
    assert Work(s, a) == AfterValidate(ValidateBag(start, a.validate), a);
  }

  lemma FailedRoute(s: State, a: Attempt, which: Which)
    requires RunsPackage(s) && !a.package.Packaged?
    ensures FactsOf(Pick(Work(s, a), which)) == FactsAfter(s, a, which)
  {
    var start: State := s.(package := s.package.Cleared());
    assert Work(s, a) == BuildBag(start, a.package).1;
  }

  lemma PackageRoute(s: State, a: Attempt, which: Which)
    requires RunsPackage(s) && a.package.Packaged?
    ensures FactsOf(Pick(Work(s, a), which)) == FactsAfter(s, a, which)
  {
    var built := BuildBag(s.(package := s.package.Cleared()), a.package).1;
    ValidationFacts(built, a);
    assert Work(s, a) == AfterValidate(ValidateBag(built, a.validate), a);
  }

  /** What all the stages of a delivery, wherever it goes on, leave on record. */
  lemma WorkFacts(s: State, a: Attempt, which: Which)
    ensures FactsOf(Pick(Work(s, a), which)) == FactsAfter(s, a, which)
  {
    if Clean(s.copy) || ToCopy(s) {
      CopyRoute(s, a, which);
    } else if ToValidate(s) {
      ValidateRoute(s, a, which);
    } else if a.package.Packaged? {
      PackageRoute(s, a, which);
    } else {
      FailedRoute(s, a, which);
    }
  }

  /** The tar file on disk after the work: the next one if packaging got as far as writing one. */
  lemma WorkTar(s: State, a: Attempt)
    ensures Work(s, a).tar ==
            if RunsPackage(s) && (a.package.Packaged? || a.package == TarFailed(true)) then Some(s.nextTar) else s.tar
    ensures Work(s, a).tarPath == (s.tarPath || (RunsPackage(s) && !a.package.FetchOrWriteFailed?))
  {
  }

  // ----- the verdict -----

  /** Nothing is left but to finish, or the tar file goes out and no error stays on record. */
  predicate Succeeds(s: State, a: Attempt) {
    if Clean(s.copy) then !s.package.HasErrors() && !s.validate.HasErrors()
    else Uploads(s, a) && !s.record.HasErrors() && if ToCopy(s) then !s.package.HasErrors() else !s.copy.HasErrors()
  }

  predicate ErrorsAs(r: Item, s: State, a: Attempt) {
    forall which :: Pick(r, which).HasErrors() == FactsAfter(s, a, which).errors
  }

  lemma WorkErrors(s: State, a: Attempt)
    ensures ErrorsAs(Work(s, a), s, a)
  {
    forall which ensures Pick(Work(s, a), which).HasErrors() == FactsAfter(s, a, which).errors {
      WorkFacts(s, a, which);
    }
  }

  lemma NoErrorLeft(s: State, a: Attempt)
    ensures Succeeds(s, a) <==> !PackageFacts(s, a).errors && !ValidateFacts(s, a).errors && !CopyFacts(s, a).errors &&
                                !RecordFacts(s).errors
  {
  }

  lemma ErrorsDecide(r: Item, s: State, a: Attempt)
    requires ErrorsAs(r, s, a)
    ensures !r.HasErrors() <==> Succeeds(s, a)
  {
    assert Pick(r, ThePackage) == r.package && Pick(r, TheValidate) == r.validate;
    assert Pick(r, TheCopy) == r.copy && Pick(r, TheRecord) == r.record;
    NoErrorLeft(s, a);
  }

  lemma WorkSucceedsIff(s: State, a: Attempt)
    ensures !Work(s, a).HasErrors() <==> Succeeds(s, a)
  {
    WorkErrors(s, a);
    ErrorsDecide(Work(s, a), s, a);
  }

  /** The latest stage that was ever started. */
  function LastStage(s: State, a: Attempt): Which {
    if s.record.started then TheRecord
    else if s.copy.started || RunsCopy(s, a) then TheCopy
    else if s.validate.started || RunsValidate(s, a) then TheValidate
    else ThePackage
  }

  lemma LastStageIs(s: State, a: Attempt)
    ensures MostRecent(Work(s, a)) == LastStage(s, a)
  {
    WorkFacts(s, a, TheValidate);
    WorkFacts(s, a, TheCopy);
    WorkFacts(s, a, TheRecord);
  }

  predicate PastLimit(s: State, a: Attempt, maxAttempts: nat) {
    FactsAfter(s, a, LastStage(s, a)).number > maxAttempts
  }

  lemma JudgedFacts(s: State, which: Which, maxAttempts: nat, v: Which)
    ensures FactsOf(Pick(Judged(s, which, maxAttempts), v)) ==
            JudgedAs(FactsOf(Pick(s, v)), v == which, Pick(s, which).attemptNumber > maxAttempts, false)
  {
  }

  lemma FatalSomewhere(s: Item)
    ensures s.HasFatalErrors() <==> exists v :: Pick(s, v).errorIsFatal
  {
    if s.HasFatalErrors() {
      assert Pick(s, ThePackage).errorIsFatal || Pick(s, TheValidate).errorIsFatal || Pick(s, TheCopy).errorIsFatal ||
             Pick(s, TheRecord).errorIsFatal;
    }
  }

  lemma NotedFacts(s: State, which: Which, v: Which)
    ensures var f := JudgedAs(FactsOf(Pick(s, v)), v == which, false, s.HasFatalErrors());
            FactsOf(Pick(Closed(Noted(s, which)), v)) ==
            if v == TheRecord && s.HasFatalErrors() then Closing(f) else f
  {
  }

  lemma AfterError(s: State, maxAttempts: nat, deleted: bool, v: Which)
    ensures var which := MostRecent(s);
            var over := Pick(s, which).attemptNumber > maxAttempts;
            var fatal := over || s.HasFatalErrors();
            var f := JudgedAs(FactsOf(Pick(s, v)), v == which, over, fatal);
            FactsOf(Pick(FinishWithError(s, maxAttempts, deleted).1, v)) ==
            if v == TheRecord && fatal then Closing(f) else f
  {
    var which := MostRecent(s);
    var judged := Judged(s, which, maxAttempts);
    JudgedFacts(s, which, maxAttempts, v);
    TarMakesNoDifference(judged, deleted, v);
    NotedFacts(WithoutTar(judged, deleted), which, v);
    OverIsFatal(s, which, maxAttempts);
  }

  lemma TarMakesNoDifference(s: State, deleted: bool, v: Which)
    ensures Pick(WithoutTar(s, deleted), v) == Pick(s, v)
    ensures WithoutTar(s, deleted).HasFatalErrors() == s.HasFatalErrors()
  {
  }

  lemma OverIsFatal(s: State, which: Which, maxAttempts: nat)
    ensures Judged(s, which, maxAttempts).HasFatalErrors() <==>
            Pick(s, which).attemptNumber > maxAttempts || s.HasFatalErrors()
  {
  }

  lemma ErrorVerdict(s: State, maxAttempts: nat, deleted: bool)
    ensures var last := Pick(s, MostRecent(s));
            FinishWithError(s, maxAttempts, deleted).0 ==
            if last.errorIsFatal || last.attemptNumber > maxAttempts then GivenUp else Requeued
  {
    AfterError(s, maxAttempts, deleted, MostRecent(s));
  }

  /** The verdict on every delivery: a success exactly when no stage has an error left, and an
      item is given up exactly when its latest stage is fatal or past the limit. */
  lemma DeliveryVerdict(w: World, a: Attempt, maxAttempts: nat)
    ensures var s := Load(w, a);
            Deliver(w, a, maxAttempts).verdict ==
            if Succeeds(s, a) then Success
            else if FactsAfter(s, a, LastStage(s, a)).fatal || PastLimit(s, a, maxAttempts) then GivenUp
            else Requeued
  {
    var s := Load(w, a);
    WorkSucceedsIff(s, a);
    LastStageIs(s, a);
    WorkFacts(s, a, LastStage(s, a));
    ErrorVerdict(Work(s, a), maxAttempts, a.tarDeleted);
  }

  /** Where it all starts: the first delivery succeeds exactly when the bag is packaged, the
      validator does not object, or cannot be asked, and the upload goes through. */
  lemma FirstDelivery(a: Attempt, maxAttempts: nat)
    ensures var v := Deliver(START, a, maxAttempts).verdict;
            && (v == Success <==> a.package.Packaged? && (FoundValid(a) || a.validate.OpenError?) && a.uploadOk)
            && (v == GivenUp <==> v != Success && (maxAttempts == 0 || (a.package.Packaged? && FatalReport(a))))
  {
    DeliveryVerdict(START, a, maxAttempts);
    NewItem(Load(START, a), a);
  }

  predicate FatalReport(a: Attempt) {
    ReportsErrors(a) && a.validate.fatal
  }

  lemma NewItem(s: State, a: Attempt)
    requires s.package == s.validate == s.copy == s.record == FRESH && s.tar.None?
    ensures Succeeds(s, a) <==> a.package.Packaged? && (FoundValid(a) || a.validate.OpenError?) && a.uploadOk
    ensures FactsAfter(s, a, LastStage(s, a)).number == 1
    ensures FactsAfter(s, a, LastStage(s, a)).fatal <==> a.package.Packaged? && FatalReport(a)
  {
  }

  lemma FreshItem(s: State, r: State, a: Attempt)
    requires s.package == s.validate == s.copy == s.record == FRESH
    requires r.package == r.validate == r.copy == r.record == FRESH
    ensures Succeeds(s, a) == Succeeds(r, a) && LastStage(s, a) == LastStage(r, a)
    ensures FactsAfter(s, a, LastStage(s, a)) == FactsAfter(r, a, LastStage(r, a))
  {
  }

  /** A delivery that cannot find the state of its item starts all over: it packages the bag
      anew, whatever lies on disk, and its verdict is that of a first delivery. */
  lemma LostStateStartsOver(w: World, a: Attempt, maxAttempts: nat)
    requires !a.loaded || w.saved.None?
    ensures Deliver(w, a, maxAttempts).verdict == Deliver(START, a, maxAttempts).verdict
    ensures RunsPackage(Load(w, a)) && !Load(w, a).TarExists()
  {
    DeliveryVerdict(w, a, maxAttempts);
    DeliveryVerdict(START, a, maxAttempts);
    FreshItem(Load(w, a), Load(START, a), a);
  }

  /** A packaging error alone does not stand in the way: with no tar file left over, a
      delivery that finds its state can succeed exactly when no validation, copy or record
      error is on record, or the copy stage is already clean and all that is left is to
      finish. */
  lemma RetrySucceedsIff(w: World, maxAttempts: nat)
    requires w.tar.None? && w.saved.Some?
    ensures (exists a: Attempt :: a.loaded && Deliver(w, a, maxAttempts).verdict == Success) <==>
            var s := w.saved.value;
            if Clean(s.copy) then !s.package.HasErrors() && !s.validate.HasErrors()
            else !s.validate.HasErrors() && !s.copy.HasErrors() && !s.record.HasErrors()
  {
    forall a: Attempt | a.loaded
      ensures Deliver(w, a, maxAttempts).verdict == Success <==> Succeeds(Load(w, a), a) {
      DeliveryVerdict(w, a, maxAttempts);
    }
    assert ALL_WELL.loaded;
  }

  // ----- what is kept -----

  predicate AnyFatal(s: State, a: Attempt, maxAttempts: nat) {
    PastLimit(s, a, maxAttempts) || exists which :: FactsAfter(s, a, which).fatal
  }

  /** The record stage has begun and ended. */
  function Closing(f: Facts): Facts {
    f.(number := Next(f.number), attempted := true, started := true, finished := true)
  }

  /** Past the limit the latest stage becomes fatal, and with a fatal error it is not to be
      retried. */
  function JudgedAs(f: Facts, latest: bool, over: bool, fatal: bool): Facts {
    f.(fatal := f.fatal || (latest && over), retry := f.retry && !(latest && fatal))
  }

  /** The record stage begins and ends with a success or a fatal error; all else is as the
      work left it, but for what is noted of the latest stage. */
  function KeptFacts(s: State, a: Attempt, maxAttempts: nat, which: Which): Facts {
    var f := FactsAfter(s, a, which);
    if Succeeds(s, a) then if which == TheRecord then Closing(f) else f
    else
      var fatal := AnyFatal(s, a, maxAttempts);
      var judged := JudgedAs(f, which == LastStage(s, a), PastLimit(s, a, maxAttempts), fatal);
      if which == TheRecord && fatal then Closing(judged) else judged
  }

  lemma WorkFatal(s: State, a: Attempt)
    ensures Work(s, a).HasFatalErrors() <==> exists which :: FactsAfter(s, a, which).fatal
  {
    var r := Work(s, a);
    FatalSomewhere(r);
    forall which ensures Pick(r, which).errorIsFatal == FactsAfter(s, a, which).fatal {
      WorkFacts(s, a, which);
    }
  }

  /** What is saved after a delivery, for every stage, and what is left on disk. */
  lemma DeliveryKeeps(w: World, a: Attempt, maxAttempts: nat, which: Which)
    requires a.saved
    ensures var s, r := Load(w, a), Deliver(w, a, maxAttempts);
            && r.saved.Some? && FactsOf(Pick(r.saved.value, which)) == KeptFacts(s, a, maxAttempts, which)
            && r.tar == (if Work(s, a).TarExists() && a.tarDeleted then None else Work(s, a).tar)
            && r.log == Work(s, a).log + (if r.verdict == Success then [Succeeded] else [])
  {
    var s := Load(w, a);
    WorkSucceedsIff(s, a);
    WorkFacts(s, a, which);
    Nothing(Work(s, a).log);
    if !Succeeds(s, a) {
      LastStageIs(s, a);
      WorkFacts(s, a, LastStage(s, a));
      WorkFatal(s, a);
      AfterError(Work(s, a), maxAttempts, a.tarDeleted, which);
    }
  }

  // ----- a failed upload -----

  /** The copy stage has failed and so many attempts at it are on record; nothing else has
      gone wrong. */
  predicate FailedCopy(w: World, n: nat) {
    w.tar.None? && w.saved.Some? && CopyFailed(w.saved.value, n)
  }

  predicate CopyFailed(s: Item, n: nat) {
    && s.copy.HasErrors() && s.copy.started && s.copy.attemptNumber == n && !s.validate.HasErrors()
    && !s.record.started && !s.HasFatalErrors()
  }

  /** Packaging and validation go well; the upload may go either way. */
  predicate ReachesCopy(a: Attempt) {
    a.loaded && a.saved && a.tarDeleted && a.package.Packaged? && FoundValid(a)
  }

  lemma CopyStageFacts(s: State, a: Attempt, n: nat)
    requires s.tar.None? && CopyFailed(s, n) && a.package.Packaged? && FoundValid(a) && n < 0xffff
    ensures !Succeeds(s, a) && LastStage(s, a) == TheCopy && RunsPackage(s)
    ensures CopyFacts(s, a) == Ran(s.copy, true, false, true) && CopyFacts(s, a).number == n + 1
    ensures !ValidateFacts(s, a).errors && !ValidateFacts(s, a).fatal && !PackageFacts(s, a).fatal
    ensures RecordFacts(s) == FactsOf(s.record)
  {
  }

  lemma CopyFailsAgain(w: World, a: Attempt, n: nat, maxAttempts: nat)
    requires FailedCopy(w, n) && ReachesCopy(a) && n < 0xffff
    ensures n < maxAttempts ==>
              FailedCopy(Deliver(w, a, maxAttempts), n + 1) && Deliver(w, a, maxAttempts).verdict.Requeued?
    ensures n >= maxAttempts ==> Deliver(w, a, maxAttempts).verdict.GivenUp?
  {
    var s := Load(w, a);
    CopyStageFacts(s, a, n);
    DeliveryVerdict(w, a, maxAttempts);
    if n < maxAttempts {
      assert !AnyFatal(s, a, maxAttempts);
      DeliveryKeeps(w, a, maxAttempts, ThePackage);
      DeliveryKeeps(w, a, maxAttempts, TheValidate);
      DeliveryKeeps(w, a, maxAttempts, TheCopy);
      DeliveryKeeps(w, a, maxAttempts, TheRecord);
      WorkTar(s, a);
    }
  }

  lemma RunStep(w: World, attempts: seq<Attempt>, maxAttempts: nat)
    requires |attempts| > 0
    ensures Run(w, attempts, maxAttempts) == Run(Deliver(w, attempts[0], maxAttempts), attempts[1..], maxAttempts)
    ensures |attempts| == 1 ==> Run(w, attempts, maxAttempts) == Deliver(w, attempts[0], maxAttempts)
  {
  }

  /** After a failed upload, deliveries that package and validate well are requeued until the
      attempts at the copy stage pass the limit, and given up then, even if every further
      upload goes through. */
  lemma {:induction false} FailedCopyIsGivenUp(w: World, attempts: seq<Attempt>, n: nat, maxAttempts: nat)
    requires FailedCopy(w, n) && maxAttempts < 0xffff && 0 < |attempts| <= maxAttempts + 1 - n
    requires forall i :: 0 <= i < |attempts| ==> ReachesCopy(attempts[i])
    ensures Run(w, attempts, maxAttempts).verdict == if n + |attempts| > maxAttempts then GivenUp else Requeued
    decreases |attempts|
  {
    CopyFailsAgain(w, attempts[0], n, maxAttempts);
    RunStep(w, attempts, maxAttempts);
    if |attempts| > 1 {
      FailedCopyIsGivenUp(Deliver(w, attempts[0], maxAttempts), attempts[1..], n + 1, maxAttempts);
    }
  }
}
