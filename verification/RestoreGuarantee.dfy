/** The two halves of a restoration together: the stages over any deliveries, and the verdict
    of the validator on the archives they make. */
module RestoreGuarantee {
  import opened Collections
  import opened Bags
  import opened Packaging
  import opened Packagers
  import opened RestoredBags
  import opened RestoreRoundTrip
  import M = RestoreMachine

  /** What is fixed for the item: the profile, where it is rebuilt, and its names. */
  datatype Setting = Setting(cfg: Config, root: string, obj: string, bagName: string)

  ghost predicate Sensible(g: Setting) {
    RootIsClean(g.root, g.obj) && '/' !in g.bagName && ProfileFits(g.cfg) && IsDigest(g.cfg.hash)
  }

  /** One packaging without an error: the records and the directory it started from, the
      directory after the fetch, and what it wrote. */
  datatype Build = Build(before: Work, fetched: Disk, texts: Texts, now: nat, order: seq<string>)

  ghost predicate IsBuild(g: Setting, b: Build) {
    && Sensible(g) && b.now > 0 && Restorable(g.obj, b.before.files) && Leftovers(g.obj, b.before.disk)
    && IsFetched(g.cfg.hash, b.before, b.fetched) && Enumerates(b.order, FinalDisk(g, b).Keys)
  }

  function FinalDisk(g: Setting, b: Build): Disk {
    Completed(g.cfg.hash, g.obj, Work(b.before.files, b.fetched), b.texts, b.now).disk
  }

  ghost predicate IsValid(g: Setting, b: Build)
    requires IsBuild(g, b)
  {
    ValidBag(g.cfg, TarItems(g.root, g.obj, g.bagName, FinalDisk(g, b), b.order), g.bagName)
  }

  /** The complete tar files of a run by their numbers. A stump has a number and no build. */
  type Builds = map<nat, Build>

  ghost predicate AreBuilds(g: Setting, builds: Builds) {
    forall n :: n in builds ==> IsBuild(g, builds[n])
  }

  /** The numbers of the tar files that are valid bags. */
  ghost function Valid(g: Setting, builds: Builds): iset<nat>
    requires AreBuilds(g, builds)
  {
    iset n | n in builds && IsValid(g, builds[n])
  }

  /** Every original file has the bytes of its latest checksums, there is no stray payload,
      and the profile is met. */
  ghost predicate IsFaithful(g: Setting, b: Build) {
    OriginalsMatch(g.cfg.hash, b.before.files, b.fetched) && NoStrayPayload(b.before.files, b.fetched) &&
    ProfileOk(g.cfg, FinalDisk(g, b))
  }

  lemma ValidIsFaithful(g: Setting, b: Build)
    requires IsBuild(g, b)
    ensures IsValid(g, b) <==> IsFaithful(g, b)
  {
    RestoreVerdict(g.cfg, g.root, g.obj, g.bagName, b.before, b.fetched, b.texts, b.now, b.order);
  }

  lemma ValidNumberIsFaithful(g: Setting, builds: Builds, n: nat)
    requires AreBuilds(g, builds) && n in Valid(g, builds)
    ensures n in builds && IsFaithful(g, builds[n])
  {
    ValidIsFaithful(g, builds[n]);
  }

  /** Over any deliveries of which none leaks, with a validator that passes only valid bags:
      every tar file that goes out was built from files that all have the recorded
      bytes. A wrong file, kept because its size is right, never goes out. */
  lemma UploadedBagsAreFaithful(g: Setting, builds: Builds, attempts: seq<M.Attempt>, maxAttempts: nat, i: nat)
    requires AreBuilds(g, builds) && M.TruthfulRun(M.START, attempts, maxAttempts, Valid(g, builds))
    requires !M.RunLeaks(M.START, attempts, maxAttempts)
    requires i < |M.Run(M.START, attempts, maxAttempts).log| && M.Run(M.START, attempts, maxAttempts).log[i].Uploaded?
    ensures var n := M.Run(M.START, attempts, maxAttempts).log[i].tar; n in builds && IsFaithful(g, builds[n])
  {
    M.RunValidatesOnlyValid(M.START, attempts, maxAttempts, Valid(g, builds));
    M.RunIsValidatedIff(M.START, attempts, maxAttempts);
    var log := M.Run(M.START, attempts, maxAttempts).log;
    M.UploadedIsValid(log, i, Valid(g, builds));
    ValidNumberIsFaithful(g, builds, log[i].tar);
  }

  /** In particular if tar files can be deleted and Validate opens its database. */
  lemma GoodRunsUploadFaithfulBags(g: Setting, builds: Builds, attempts: seq<M.Attempt>, maxAttempts: nat, i: nat)
    requires AreBuilds(g, builds) && M.TruthfulRun(M.START, attempts, maxAttempts, Valid(g, builds))
    requires forall k :: 0 <= k < |attempts| ==> M.Good(attempts[k])
    requires i < |M.Run(M.START, attempts, maxAttempts).log| && M.Run(M.START, attempts, maxAttempts).log[i].Uploaded?
    ensures var n := M.Run(M.START, attempts, maxAttempts).log[i].tar; n in builds && IsFaithful(g, builds[n])
  {
    M.UploadsAreValidated(M.START, attempts, maxAttempts);
    M.RunValidatesOnlyValid(M.START, attempts, maxAttempts, Valid(g, builds));
    var log := M.Run(M.START, attempts, maxAttempts).log;
    M.UploadedIsValid(log, i, Valid(g, builds));
    ValidNumberIsFaithful(g, builds, log[i].tar);
  }
}
