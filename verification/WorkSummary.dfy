/** The record of one unit of work: attempts, errors, start and finish
    (models/work_summary.go). Timestamps are kept as whether they are set. */
module WorkSummaries {

  const MAX_ERRORS := 30
  const TOO_MANY := "Too many errors"

  /** The attempt number after the next increment of a uint16. */
  function Next(n: nat): nat {
    if n == 0xffff then 0 else n + 1
  }

  /** The value of a summary at one moment. */
  datatype Summary = Summary(
    attempted: bool,
    attemptNumber: nat,
    errorIsFatal: bool,
    errors: seq<string>,
    started: bool,
    finished: bool,
    retry: bool)
  {
    predicate HasErrors() {
      |errors| > 0
    }

    /** The invariant of every summary that grew through WithError. */
    predicate Bounded() {
      |errors| <= MAX_ERRORS && attemptNumber < 0x1_0000
    }

    function WithError(message: string): (s: Summary)
      requires Bounded()
      ensures s.Bounded() && s.HasErrors() && s == this.(errors := s.errors)
    {
      if |errors| > 29 then this
      else if |errors| == 29 then this.(errors := errors + [TOO_MANY])
      else this.(errors := errors + [message])
    }

    function WithErrors(messages: seq<string>): (s: Summary)
      requires Bounded()
      ensures s.Bounded() && s.HasErrors() == (HasErrors() || |messages| > 0) && s == this.(errors := s.errors)
      decreases |messages|
    {
      if |messages| == 0 then this else WithError(messages[0]).WithErrors(messages[1..])
    }

    function Cleared(): Summary {
      this.(errors := [], errorIsFatal := false)
    }

    /** What every stage does first: one more attempt (a uint16, which wraps), now started. */
    function Begun(): (s: Summary)
      requires Bounded()
      ensures s.Bounded()
    {
      this.(attempted := true, attemptNumber := Next(attemptNumber), started := true)
    }

    function Fatal(): Summary {
      this.(errorIsFatal := true)
    }

    function Done(): Summary {
      this.(finished := true)
    }
  }

  const FRESH := Summary(false, 0, false, [], false, false, true)

  class WorkSummary {
    var attempted: bool
    var attemptNumber: nat
    var errorIsFatal: bool
    var errors: seq<string>
    var started: bool
    var finished: bool
    var retry: bool

    function View(): Summary
      reads this
    {
      Summary(attempted, attemptNumber, errorIsFatal, errors, started, finished, retry)
    }

    ghost predicate Valid()
      reads this
    {
      View().Bounded()
    }

    constructor ()
      ensures View() == FRESH && Valid()
    {
      attempted, attemptNumber, errorIsFatal, errors := false, 0, false, [];
      started, finished, retry := false, false, true;
    }

    method AddError(message: string)
      requires Valid()
      modifies this
      ensures Valid() && View() == old(View()).WithError(message)
    {
      if |errors| > 29 {
        return;
      }
      if |errors| == 29 {
        errors := errors + [TOO_MANY];
      } else {
        errors := errors + [message];
      }
    }

    method ClearErrors()
      modifies this
      ensures View() == old(View()).Cleared()
    {
      errorIsFatal := false;
      errors := [];
    }

    /** `Attempted = true; AttemptNumber += 1; Start()`. */
    method Begin()
      requires Valid()
      modifies this
      ensures Valid() && View() == old(View()).Begun()
    {
      attempted := true;
      attemptNumber := Next(attemptNumber);
      started := true;
    }

    method Finish()
      modifies this
      ensures View() == old(View()).Done()
    {
      finished := true;
    }
  }

  /** However many errors are reported, the list never passes thirty entries, the first
      report stays first, and from the thirtieth report on the last entry says so. */
  lemma {:induction false} CapKeepsFirstAndMarksTheCut(s: Summary, messages: seq<string>)
    requires s.Bounded() && |s.errors| == 0
    ensures var r := s.WithErrors(messages).errors;
            && |r| == (if |messages| < MAX_ERRORS then |messages| else MAX_ERRORS)
            && (forall i :: 0 <= i < |r| && i < 29 ==> r[i] == messages[i])
            && (|messages| >= MAX_ERRORS ==> r[29] == TOO_MANY)
  {
    CapFrom(s, messages);
  }

  lemma {:induction false} CapFrom(s: Summary, messages: seq<string>)
    requires s.Bounded()
    ensures var r, n := s.WithErrors(messages).errors, |s.errors|;
            && |r| == (if n + |messages| < MAX_ERRORS then n + |messages| else MAX_ERRORS)
            && s.errors <= r
            && (forall i :: n <= i < |r| && i < 29 ==> r[i] == messages[i - n])
            && (n < MAX_ERRORS && n + |messages| >= MAX_ERRORS ==> r[29] == TOO_MANY)
    decreases |messages|
  {
    if |messages| > 0 {
      var t := s.WithError(messages[0]);
      CapFrom(t, messages[1..]);
      var r, n := s.WithErrors(messages).errors, |s.errors|;
      assert r == t.WithErrors(messages[1..]).errors;
      forall i | n <= i < |r| && i < 29
        ensures r[i] == messages[i - n]
      {
        if i == n {
          assert t.errors[n] == messages[0];
        } else {
          assert messages[1..][i - n - 1] == messages[i - n];
        }
      }
    }
  }
}
