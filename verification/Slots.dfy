/** One large bag and one bag of many files at a time: how concurrent store workers share two
    slots in the synchronized map (workers/apt_storer.go, models/synchronized_map.go). The map
    locks each access, but looking at a slot and taking it are two accesses. */
module Slots {

  const TWO_HUNDRED_GIGABYTES := 200000000000
  const HIGH_FILE_COUNT := 5000

  datatype Kind = Large | ManyFiles | Ordinary

  /** A delivery of a bag, with its object identifier. A large bag is not counted among those
      of many files. */
  datatype Job = Job(n: nat, id: string, size: nat, fileCount: nat) {
    function Kind(): Kind {
      if size > TWO_HUNDRED_GIGABYTES then Large else if fileCount > HIGH_FILE_COUNT then ManyFiles else Ordinary
    }
  }

  /** `checked` found its slot free and will take it; `leaving` was refused and is on its way
      to the record step, which clears any slot with its own identifier. */
  datatype State = State(large: string, manyFiles: string, checked: set<Job>, storing: set<Job>, leaving: set<Job>)

  datatype Step = Look(job: Job) | Take(job: Job) | Finish(job: Job)

  const START := State("", "", {}, {}, {})

  function SlotOf(s: State, kind: Kind): string {
    match kind
    case Large => s.large
    case ManyFiles => s.manyFiles
    case Ordinary => ""
  }

  predicate Busy(s: State, j: Job) {
    j in s.checked || j in s.storing || j in s.leaving
  }

  predicate Enabled(s: State, step: Step) {
    match step
    case Look(j) => !Busy(s, j)
    case Take(j) => j in s.checked
    case Finish(j) => j in s.storing || j in s.leaving
  }

  function After(s: State, step: Step): State
    requires Enabled(s, step)
  {
    match step
    case Look(j) =>
      if j.Kind() == Ordinary then s.(storing := s.storing + {j})
      else if SlotOf(s, j.Kind()) == "" then s.(checked := s.checked + {j})
      else s.(leaving := s.leaving + {j})
    case Take(j) =>
      s.(large := if j.Kind() == Large then j.id else s.large,
         manyFiles := if j.Kind() == ManyFiles then j.id else s.manyFiles,
         checked := s.checked - {j}, storing := s.storing + {j})
    case Finish(j) =>
      s.(large := if s.large == j.id then "" else s.large,
         manyFiles := if s.manyFiles == j.id then "" else s.manyFiles,
         storing := s.storing - {j}, leaving := s.leaving - {j})
  }

  /** A bag of at most 200 GB and 5000 files is stored at once. Any other waits for its slot:
      that of large bags if it is larger, or else that of bags of many files. */
  lemma WhoNeedsASlot(s: State, j: Job)
    requires Enabled(s, Look(j))
    ensures var r := After(s, Look(j));
            if j.size <= 200000000000 && j.fileCount <= 5000 then j in r.storing && j !in r.checked && j !in r.leaving
            else
              var slot := if j.size > 200000000000 then s.large else s.manyFiles;
              j !in r.storing && (j in r.checked <==> slot == "") && (j in r.leaving <==> slot != "")
  {
  }

  /** The steps can be taken one after the other. */
  predicate IsRun(s: State, steps: seq<Step>)
    decreases |steps|
  {
    |steps| == 0 || (Enabled(s, steps[0]) && IsRun(After(s, steps[0]), steps[1..]))
  }

  function Run(s: State, steps: seq<Step>): State
    requires IsRun(s, steps)
    decreases |steps|
  {
    if |steps| == 0 then s else Run(After(s, steps[0]), steps[1..])
  }

  predicate Exclusive(s: State) {
    forall a, b :: a in s.storing && b in s.storing && a.Kind() == b.Kind() != Ordinary ==> a == b
  }

  /** Nobody looks at a slot between another's look and take. */
  predicate Unhurried(s: State, steps: seq<Step>)
    requires IsRun(s, steps)
    decreases |steps|
  {
    || |steps| == 0
    || (&& (steps[0].Look? ==> forall a :: a in s.checked ==> a.Kind() != steps[0].job.Kind())
        && Unhurried(After(s, steps[0]), steps[1..]))
  }

  /** Jobs of the run have names, and different jobs different ones. */
  predicate Named(jobs: set<Job>) {
    (forall a :: a in jobs ==> a.id != "") && (forall a, b :: a in jobs && b in jobs && a.id == b.id ==> a == b)
  }

  predicate Among(s: State, jobs: set<Job>) {
    s.checked <= jobs && s.storing <= jobs && s.leaving <= jobs
  }

  /** A slot is held by the one bag of its kind that is being stored, or it is free, and then
      at most one bag is about to take it. */
  predicate SlotInOrder(s: State, kind: Kind) {
    && (forall a :: a in s.storing && a.Kind() == kind ==> a.id == SlotOf(s, kind))
    && (SlotOf(s, kind) != "" ==> exists a :: a in s.storing && a.Kind() == kind && a.id == SlotOf(s, kind))
    && (forall a :: a in s.checked && a.Kind() == kind ==> SlotOf(s, kind) == "")
    && (forall a, b :: a in s.checked && b in s.checked && a.Kind() == kind && b.Kind() == kind ==> a == b)
  }

  predicate Orderly(s: State) {
    && SlotInOrder(s, Large) && SlotInOrder(s, ManyFiles)
    && s.leaving !! s.storing && s.checked !! s.storing && s.checked !! s.leaving
    && forall a :: a in s.checked ==> a.Kind() != Ordinary
  }

  lemma LookKeeps(s: State, j: Job, kind: Kind)
    requires SlotInOrder(s, kind) && kind != Ordinary && Enabled(s, Look(j))
    requires forall a :: a in s.checked ==> a.Kind() != j.Kind()
    ensures SlotInOrder(After(s, Look(j)), kind)
  {
    var r := After(s, Look(j));
    assert SlotOf(r, kind) == SlotOf(s, kind);
    assert forall a :: a in s.storing ==> a in r.storing;
  }

  lemma TakeKeeps(s: State, j: Job, kind: Kind, jobs: set<Job>)
    requires Named(jobs) && Among(s, jobs) && SlotInOrder(s, kind) && kind != Ordinary && Enabled(s, Take(j)) &&
             j.Kind() != Ordinary
    ensures SlotInOrder(After(s, Take(j)), kind)
  {
    var r := After(s, Take(j));
    if j.Kind() == kind {
      assert forall a :: a in s.storing && a.Kind() == kind ==> a in jobs && a.id == "";
      assert j in r.storing && j.id == SlotOf(r, kind);
    } else {
      assert SlotOf(r, kind) == SlotOf(s, kind);
      assert forall a :: a in s.storing ==> a in r.storing;
    }
  }

  lemma FinishKeeps(s: State, j: Job, kind: Kind, jobs: set<Job>)
    requires Named(jobs) && Among(s, jobs) && SlotInOrder(s, kind) && kind != Ordinary && Enabled(s, Finish(j))
    requires s.leaving !! s.storing
    ensures SlotInOrder(After(s, Finish(j)), kind)
  {
    var r := After(s, Finish(j));
    if j in s.storing && j.Kind() == kind {
      assert forall a :: a in s.storing && a.Kind() == kind ==> a in jobs && a.id == j.id;
      assert SlotOf(r, kind) == "";
    } else {
      assert forall a :: a in s.storing && a.Kind() == kind ==> a in jobs && a != j && a in r.storing;
      assert SlotOf(r, kind) == SlotOf(s, kind);
    }
  }

  predicate StepsAmong(steps: seq<Step>, jobs: set<Job>) {
    forall k :: 0 <= k < |steps| ==> steps[k].job in jobs
  }

  lemma OrderlyLook(s: State, j: Job, jobs: set<Job>)
    requires Among(s, jobs) && Orderly(s) && j in jobs && Enabled(s, Look(j)) &&
             forall a :: a in s.checked ==> a.Kind() != j.Kind()
    ensures Orderly(After(s, Look(j))) && Among(After(s, Look(j)), jobs)
  {
    LookKeeps(s, j, Large);
    LookKeeps(s, j, ManyFiles);
  }

  lemma OrderlyTake(s: State, j: Job, jobs: set<Job>)
    requires Named(jobs) && Among(s, jobs) && Orderly(s) && Enabled(s, Take(j))
    ensures Orderly(After(s, Take(j))) && Among(After(s, Take(j)), jobs)
  {
    TakeKeeps(s, j, Large, jobs);
    TakeKeeps(s, j, ManyFiles, jobs);
  }

  lemma OrderlyFinish(s: State, j: Job, jobs: set<Job>)
    requires Named(jobs) && Among(s, jobs) && Orderly(s) && Enabled(s, Finish(j))
    ensures Orderly(After(s, Finish(j))) && Among(After(s, Finish(j)), jobs)
  {
    FinishKeeps(s, j, Large, jobs);
    FinishKeeps(s, j, ManyFiles, jobs);
  }

  lemma OrderlyIsExclusive(s: State, jobs: set<Job>)
    requires Named(jobs) && Among(s, jobs) && Orderly(s)
    ensures Exclusive(s)
  {
  }

  /** If looking and taking are never interleaved, at most one large bag and one bag of many
      files are stored at any time, no bag frees the slot of another, and a slot that is taken
      is held by a bag that is being stored. */
  lemma {:induction false} UnhurriedRunIsExclusive(s: State, steps: seq<Step>, jobs: set<Job>)
    requires Named(jobs) && Among(s, jobs) && StepsAmong(steps, jobs) && Orderly(s)
    requires IsRun(s, steps) && Unhurried(s, steps)
    ensures Exclusive(Run(s, steps)) && Orderly(Run(s, steps))
    decreases |steps|
  {
    if |steps| == 0 {
      OrderlyIsExclusive(s, jobs);
    } else {
      match steps[0] {
        case Look(j) => OrderlyLook(s, j, jobs);
        case Take(j) => OrderlyTake(s, j, jobs);
        case Finish(j) => OrderlyFinish(s, j, jobs);
      }
      UnhurriedRunIsExclusive(After(s, steps[0]), steps[1..], jobs);
    }
  }

  lemma ThreeSteps(s: State, a: Step, b: Step, c: Step)
    requires Enabled(s, a) && Enabled(After(s, a), b) && Enabled(After(After(s, a), b), c)
    ensures IsRun(s, [a, b, c]) && Run(s, [a, b, c]) == After(After(After(s, a), b), c)
  {
    var r := After(After(After(s, a), b), c);
    assert [c][1..] == [] && IsRun(r, []) && Run(r, []) == r;
    assert IsRun(After(After(s, a), b), [c]) && Run(After(After(s, a), b), [c]) == r;
    assert [b, c][1..] == [c] && [a, b, c][1..] == [b, c];
    assert IsRun(After(s, a), [b, c]) && Run(After(s, a), [b, c]) == r;
  }

  /** Any look during another's pause between look and take can end with two bags of a kind
      stored at once: with several workers, the slots do not exclude. */
  lemma InterleavedLooksCollide(s: State, a: Job, b: Job)
    requires a.Kind() == b.Kind() != Ordinary && SlotOf(s, a.Kind()) == "" && a in s.checked && !Busy(s, b)
    ensures IsRun(s, [Look(b), Take(a), Take(b)]) && !Exclusive(Run(s, [Look(b), Take(a), Take(b)]))
  {
    ThreeSteps(s, Look(b), Take(a), Take(b));
    var r := Run(s, [Look(b), Take(a), Take(b)]);
    assert a in r.storing && b in r.storing && a != b;
  }

  /** A second delivery of the same object is refused, and on leaving frees the slot that the
      first still needs. */
  lemma SameIdentifierFreesTheSlot(s: State, a: Job, b: Job)
    requires a.id == b.id != "" && a.Kind() == b.Kind() != Ordinary && a in s.storing && SlotOf(s, a.Kind()) == a.id &&
             !Busy(s, b)
    ensures Enabled(s, Look(b)) && Enabled(After(s, Look(b)), Finish(b))
    ensures var r := After(After(s, Look(b)), Finish(b)); SlotOf(r, a.Kind()) == "" && a in r.storing
  {
  }
}
