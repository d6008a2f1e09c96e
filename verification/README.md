# APTrust Exchange, modelled in Dafny

Exchange moves BagIt bags in and out of long-term storage. Ingest validates a bag, copies its files to S3 and Glacier and records them in the Pharos registry. Restoration moves files back from Glacier, rebuilds the bag, validates it and uploads it for the depositor. This project models the parts of that system whose guarantees span many functions and many retries, and proves what they guarantee.

The model follows the source's form. Objects whose methods change fields are classes, loops are loops, and each such method is proved equal to a function on values; the laws are then proved about those functions. Calls to S3, Glacier, Pharos, NSQ and the disk are inputs that may be anything, so that a lemma over "every run" covers every pattern of failure. Digests are an arbitrary function of bytes, times are kept as whether they are set (or as a number where they are compared), file contents are character strings.

| files | part of the system |
|---|---|
| Manifests, Tags, TagRoundTrip, TarFiles, Bags, Validator | reading a bag back and judging it |
| Packaging, Packager, RestoredBags, RestoreRoundTrip | rebuilding a bag, and the verdict on what was rebuilt |
| RestoreMachine, RestoreVerdicts, RestoreGuarantee | the restorer's four stages over any number of deliveries, the verdict on each, and what it lets out |
| Storing, Storer, StoreVerdicts | copying files to storage with retries, batches and deliveries, and the verdict on each |
| Glacier, GlacierPasses | the passes that move files from Glacier to S3, and what each does |
| IngestEvents, Recorder, RecordedFacts | building PREMIS events, recording files over several attempts, and what reaches Pharos |
| Volume, FileIndex, Slots, PartSize, WorkSummary | the small stateful structures under them |
| Text, Collections, Options | strings, sequences, optional values |

## Main results

- A restored bag passes validation **if and only if** every original file has the bytes of its latest recorded checksums after the fetch, no payload file lies about without a record, and the profile is met (`RestoreVerdict`), whatever the states of the files and also if several records share a path; a wrong file kept because its size is right is always caught (`WrongBytesAreCaught`). The validator ends if and only if the archive is undamaged or cannot be opened, and then reports an error if and only if a declarative definition of a valid bag, its tags included, fails (`Validate`, `SecondPassEndsIffReadable`), and printing and parsing a manifest is the identity if and only if every entry is printable (`ManifestRoundTrip`). Reading a tag file gives exactly the tags that were written, continuation lines joined (`TagFileRoundTrip`), and a bag is built if and only if every file is on disk or arrives and has its digests (`BuildBag`, `FetchSucceedsIff`).
- Over any deliveries, every uploaded tar file was found valid before **if and only if** no delivery meets one of three conditions (`RunIsValidatedIff`, `UnvalidatedUpload`); with working deletion and an openable database none does (`UploadsAreValidated`). Together with the verdict on archives, and given that the validator never passes a bag that is not valid: what is uploaded was built from files that all have their recorded bytes (`UploadedBagsAreFaithful`). Every delivery has the verdict that the state it finds and the answers it gets determine, success included (`DeliveryVerdict`, `DeliveryKeeps`).
- Over any deliveries and batches, an ingest goes on to the recorder only when every file that needs saving was marked on an upload of the right size (`PushedBagIsStored`), and was sent whole if buckets list sizes truly (`PushedBagIsStoredWhole`). Every file that its last lookup calls new or changed has been uploaded by then, and the last delivery uploads no other (`PushedFilesAreUploaded`), and the verdict on every delivery is determined by what it meets (`StoreVerdict`).
- Over any passes, a Glacier retrieval ends in a Restore item only when every needed file has been seen in S3 (`RestoreOnlyWhenAllSeen`), and no file has two accepted retrieval calls (`OneAcceptedRetrieval`). A pass calls for exactly the dormant files that were not accepted before (`PassCalls`), decides by its answers (`PassDecides`), and an item whose retrievals are accepted and arrive in time ends in a Restore item (`RetrievalLeadsToRestore`).
- Over any record attempts, two events sent about the same fact have the same UUID (`OneUuidForOneFact`), and a file Pharos has answered is never created again (`AnsweredFileIsNotCreatedAgain`). An attempt sends whatever it builds and exactly the children without an id (`BuiltIsSent`, `UpdateSendsUnsaved`), and a file answered in full sends nothing more (`RecordedInOneAttempt`).

## Where the code differs from what it says

Each of these is proved of the code as it is.

- The validator never ends on a damaged archive. The tar reader repeats its error at every step, and the exit at more than a hundred errors is never taken, because a summary never holds more than thirty (`SecondPassEndsIffReadable`, `ParseNext`).
- A manifest line of 65536 characters or more ends the reading of that manifest without an error (`LongLineEndsTheManifest`). `PremisEvents.json` is opened without truncation, so the tail of a longer old one stays (`PremisTailStays`).
- `tarBag` cuts a file name where the object identifier occurs again (`ArchiveNameKeepsPath`, `CollisionExists`).
- Manifests list deleted files, so the bag of an object with a deleted file does not validate, unless an earlier attempt left a copy on disk or the file is one that the restorer generates (`DeletedFileIsStillListed`).
- An error returned by `Validate` is dropped through a shadowed variable (`UnvalidatedUpload`). A validation or copy error, once saved, is never cleared, so no retry succeeds (`RetriesNeverSucceed`), not even after one failed upload when all later ones would go through (`FailedCopyIsGivenUp`). A bag that fails validation is requeued without end, because the validator's own summary starts again at attempt one (`FailingValidationIsRequeuedForever`).
- The first upload of a large file sends no bytes, since the reader of the temporary file is shadowed (`LargeStandardFile`). A temporary file of a wrong size other than zero is never replaced and blocks the file for ever (`StumpIsForever`); an extraction that stops half-way leaves one (`InterruptedExtractionBlocks`). A batch limit of zero never ends, and a negative one pushes unstored bags (`LimitZeroNeverEnds`, `NegativeLimitPushesUnstored`). Refusals of a high-resource bag use up its attempts; a refusal also leaves the bag's database open, so that the same process may find it locked, which uses up attempts in the same way (`RefusalsUseUpAttempts`).
- A storage URL without an http or https scheme makes event building add an event at every call, although its comment calls it idempotent (`IdempotentIff`, `OddUrlRepeats`).
- `GetChecksumByDigest` returns the first checksum of a digest, although its comment says the last; a saved id goes to that one and to no other (`SetChecksumId`). The two are the same if and only if no two checksums share the digest (`FirstIsLastIff`).
- Ids that Pharos assigns to children in an update never reach the record, so the children are sent again (`UpdatedChildrenAreResent`).
- A record of a file that is no longer needed keeps a Glacier item from ever being ready (`StaleRecordBlocks`); an item whose state cannot be saved is polled without end while its retrievals are in progress, if and only if the next attempt is below the limit (`UnsavedStatePollsForever`).
- The index of an object's files is rebuilt only when the number of files changes, so it is right for another list of the same length if and only if nothing was replaced (`IndexIsStaleIff`, `ReplacedFileIsMissed`).
- Reserving a path twice leaks the first reservation, and a disk that shrinks below the claimed space grants nearly everything (`ReservingTwiceLeaks`, `GrantedFits`).
- Looking at the slot for large bags, or for bags of many files, and taking it are separate steps, so with several workers it does not exclude (`InterleavedLooksCollide`).

## Model

| member | source | states |
|---|---|---|
| `WorkSummaries.CapKeepsFirstAndMarksTheCut` | models/work_summary.go:105-116 | However many errors are added, thirty are kept, the first 29 as reported, and the last says there were too many |
| `WorkSummaries.WorkSummary.AddError` | models/work_summary.go:105-116 | The new error list is the capped extension of the old one; an error once there is never lost |
| `WorkSummaries.WorkSummary.ClearErrors` | models/work_summary.go:118-124 | Errors and the fatal flag are gone, the attempt number stays |
| `Manifests.ManifestRoundTrip` | validation/validator.go:601-662 | Parsing a printed list of entries gives the list back if and only if each entry is printable: no line break, no blank at the front, no carriage return at the end, shorter than the scanner's limit |
| `Manifests.LongLineEndsTheManifest` | validation/validator.go:601-662 | A line of 65536 characters or more ends the reading, and nothing after it is read; a shorter one does not |
| `TarFiles.OriginalPathOfIdentifier` | models/generic_file.go:305-308 | The path put into an identifier comes out again, even if the object identifier recurs inside it |
| `TarFiles.IdentifierInjective` | validation/validator.go:266-269 | Two files of one object with the same identifier have the same path |
| `TarFiles.EntryNameRoundTrip` | models/generic_file.go:313-320 | An entry's name survives the way through RelPath, identifier and OriginalPathWithBagName if and only if it lies inside the folder and the tar file is no part of a multipart bag |
| `TarFiles.MultipartNameIsCleaned` | util/util.go:92-101 | The name of a part of a multipart bag loses its part number and extension and nothing else, whatever the bag is called |
| `TarFiles.FindInReturnsTheEntry` | util/fileutil/tar_file_iterator.go:74-89 | The first entry of a name before any damage is the one found |
| `TarFiles.FindInNothingIff` | util/fileutil/tar_file_iterator.go:74-94 | Nothing is found if and only if no entry before any damage has the name |
| `TarFiles.EveryRecordedFileIsFound` | workers/apt_storer.go:933-940 | In an undamaged archive with distinct names the storer's lookup finds the data of every recorded file |
| `TarFiles.TopDirsCollects` | util/fileutil/tar_file_iterator.go:98-113 | The collected folder names are exactly those of the entries, each once |
| `TarFiles.TarFileIterator.Next` | util/fileutil/tar_file_iterator.go:35-71 | Moves one entry on, with its path below the top folder, and notes that folder; at damage it reports the error and does not move |
| `TarFiles.TarFileIterator.SetTopLevelDirName` | util/fileutil/tar_file_iterator.go:98-113 | Adds the folder of this entry unless it is there |
| `TarFiles.TarFileIterator.Find` | util/fileutil/tar_file_iterator.go:74-94 | Reads on to the first entry of that name, or to damage or the end |
| `Bags.ContentsIsLastEntry` | validation/validator.go:256-311 | The content kept for a path is that of the last regular entry of that name |
| `Bags.LastDigestIsLast` | validation/validator.go:640-661 | The digest that counts for a path is the one listed last |
| `Bags.Rejected` | validation/validator.go:677-719 | A missing required file, a forbidden one, a bad name, a fetch.txt that is not allowed, another folder or no payload manifest makes a bag invalid, in terms of the entries of the archive |
| `Bags.WrongDigestRejected` | validation/validator.go:791-857 | So does a payload file that no manifest lists, and a file without the digest listed last for it |
| `Validation.PassesDecideValidity` | validation/validator.go:173-203 | What the two passes over the archive and the final checks find is exactly the validity of the bag |
| `Validation.FirstPassHolds` | validation/validator.go:233-311 | After the first pass the database holds one record with computed digests for each file of the bag, and no other |
| `Validation.SecondPassTaken` | validation/validator.go:370-449 | The second pass fails if and only if an entry is no file, a line names no file or a tag file cannot be scanned, and otherwise leaves in each record the digests listed last, and all tags in order |
| `Validation.SecondPassEndsIffReadable` | validation/validator.go:381-420 | The second pass ends after some number of steps if and only if the archive is undamaged |
| `Validation.PassReaches` | validation/validator.go:381-420 | Where the second pass stands after any number of steps: short of the end or of the damage, ended with what the entries say, or at the damage with an error |
| `Validation.DamageIsNotPassed` | util/fileutil/tar_file_iterator.go:35-41 | At damage the pass stays where it is at every further step |
| `Validation.RecordsOkIffFilesOk` | validation/validator.go:791-857 | The checks over records are the checks over files |
| `Validation.Validator.AddFile` | validation/validator.go:256-311 | Stores the record of one file and notes manifests, required and forbidden files |
| `Validation.Validator.AddFiles` | validation/validator.go:233-251 | The first pass as a fold over the entries; damage, or an archive that does not open, is an error and ends it |
| `Validation.Validator.ParseManifest` | validation/validator.go:601-662 | Every line sets a digest in the record it names or is an error |
| `Validation.Validator.ParseTagFile` | validation/validator.go:506-556 | Appends the tags of the file, each with the values of the lines that continue it; a line too long for the scanner is an error |
| `TagRoundTrip.TagFileRoundTrip` | validation/validator.go:506-556 | A text of tags with padded values, continuation lines and blank lines is read as exactly those tags, in order, the last one included |
| `TagRoundTrip.ScanFailsIffLongLine` | validation/validator.go:519-551 | Reading a tag file fails if and only if some line is too long for the scanner |
| `TagRoundTrip.ProfileOnWrittenTags` | validation/validator.go:723-786 | A tag file meets a profile if and only if the tags written in it do |
| `Validation.Validator.CheckTag` | validation/validator.go:748-786 | A required tag is there, with a value unless it may be empty, and some value of a tag that is there is an allowed one |
| `Validation.Validator.VerifyTagSpecs` | validation/validator.go:723-744 | Adds an error exactly if some tag does not meet the profile, whatever the order of the specifications |
| `Validation.Validator.ParseNext` | validation/validator.go:390-449 | One step of the second pass leaves it at the end of the archive and never for too many errors |
| `Validation.Validator.ParseFiles` | validation/validator.go:370-449 | Any number of steps of the second pass, with at most thirty errors however many steps there are |
| `Validation.Validator.VerifyGenericFiles` | validation/validator.go:791-857 | Adds an error exactly if some record fails its checks, whatever the order of the records |
| `Validation.Validator.VerifyTopLevelFolder` | validation/validator.go:677-706 | Adds an error exactly if there is not the one expected folder |
| `Validation.Validator.VerifyFileSpecs` | validation/validator.go:710-719 | Adds an error exactly if a required file is missing or a forbidden one is there |
| `Validation.Validator.Validate` | validation/validator.go:149-203 | Ends if and only if the archive is undamaged or does not open again, and then reports an error if and only if it did not open or the bag, its files or its tags, is not valid: the cap on errors hides no failure |
| `Packaging.LatestIsFirstOfTheLatest` | models/generic_file.go:331-342 | The checksum used is the first of those with the greatest time, if any carries a time |
| `Packaging.ExactlyOneManifest` | workers/apt_restorer.go:809-830 | Every file but bagit.txt belongs in exactly one kind of manifest |
| `Packaging.StreamCountIsLineCount` | models/intellectual_object.go:310-318 | The stream count is the number of lines of the payload manifest |
| `Packaging.ArchiveNameKeepsPath` | workers/apt_restorer.go:583-618 | A file keeps its path in the archive if and only if the object identifier does not recur in it |
| `Packaging.RecurringIdentifierCutsNames` | workers/apt_restorer.go:583-618 | Files whose paths agree up to a second occurrence of the identifier get the same name |
| `Packaging.CollisionExists` | workers/apt_restorer.go:583-618 | Such a pair of files |
| `Packagers.NoneWantedIff` | workers/apt_restorer.go:845-858 | A restoration is cancelled if and only if no file is active, bag-info.txt aside |
| `Packagers.CountsAgreeIff` | workers/apt_restorer.go:840-985 | As many files are present as are active if and only if every file that is not deleted is active |
| `Packagers.FetchMeans` | workers/apt_restorer.go:898-972 | When fetching one file succeeds, and what it leaves on disk in each case |
| `Packagers.FetchSucceedsIff` | workers/apt_restorer.go:881-972 | The fetch goes without an error if and only if each file has a digest and a key and lies there with its size, or arrives with its sha256 |
| `Packagers.FetchedIs` | workers/apt_restorer.go:927-972 | After such a fetch each file is the one that lay there, or the one that arrived |
| `Packagers.OxumIsTrue` | workers/apt_restorer.go:679-713 | bag-info.txt gives the sum of the recorded sizes of the payload files and the number of lines of the final payload manifests, although files are recorded afterwards |
| `Packagers.PayloadAppend` | models/intellectual_object.go:310-318 | Bytes and files of the payload are sums over the files |
| `Packagers.PremisTailStays` | workers/apt_restorer.go:991-1040 | PremisEvents.json is the new text if and only if no longer one lay there, and otherwise keeps its tail |
| `Packagers.BagInfoIsRecordedOnce` | workers/apt_restorer.go:715-769 | An old record of bag-info.txt makes way for the new one |
| `Packagers.ManifestsAreWritten` | workers/apt_restorer.go:771-807 | The four manifests on disk are the printed entries of the records |
| `Packagers.Packager.FetchFile` | workers/apt_restorer.go:920-985 | Succeeds if and only if there is a digest and a key and the file lies there with the right size or arrives with the recorded sha256; the disk after it in every case, stumps and wrong downloads included |
| `Packagers.Packager.FetchAllFiles` | workers/apt_restorer.go:840-985 | Goes without an error if and only if all of that holds of every visited file and each is active; nothing else on disk changes |
| `Packagers.Packager.AddFile` | workers/apt_restorer.go:715-769 | The record of a generated file carries the digests of what is on disk |
| `Packagers.Packager.PayloadBytesAndFiles` | models/intellectual_object.go:310-318 | Sums the sizes and counts the files under data/ |
| `Packagers.Packager.ManifestText` | workers/apt_restorer.go:783-805 | The text is the printed entries in order, up to the first file without a checksum |
| `Packagers.Packager.WriteManifests` | workers/apt_restorer.go:144-190 | Goes without an error if and only if every listed file has its digest, and then the four manifests are those of the records |
| `Packagers.Packager.BuildBag` | workers/apt_restorer.go:144-190 | Builds if and only if there are active files, all are fetched and have their digests; then it archives the directory as it is, with the manifests of the records and a true Payload-Oxum |
| `RestoredBags.TarLastDigest` | validation/validator.go:640-661 | The digest read last for a path, over all manifests of the archive in any order, is that of the last record of the path |
| `RestoredBags.TagsOfTar` | validation/validator.go:506-556 | The tags read from the archive meet the profile if and only if those of the directory do, in whatever order it is archived |
| `RestoredBags.PackagedBagVerdict` | workers/apt_restorer.go:771-830 | A packaged bag validates if and only if every path with a record is on disk with the bytes of the latest checksums of its last record, no payload file is there without a record, and the profile is met |
| `RestoredBags.ManifestNamesAreRead` | validation/validator.go:352-366 | The names the restorer gives its manifests are read as manifests of that kind and algorithm |
| `RestoreRoundTrip.GeneratedRecords` | workers/apt_restorer.go:620-769 | The generated files change which record decides only at their own paths, and there it is one that matches the disk |
| `RestoreRoundTrip.RestoreVerdict` | workers/apt_restorer.go:144-236 | The restored bag of an object, with files in any state and also several records of a path, validates if and only if the originals match their records after the fetch, there is no stray payload, and the profile is met |
| `RestoreRoundTrip.WrongBytesAreCaught` | workers/apt_restorer.go:927-940 | A file with the wrong sha256, even of the right size, makes the bag invalid |
| `RestoreRoundTrip.DeletedFileIsStillListed` | workers/apt_restorer.go:783-805 | The bag built for an object all of whose records of some path are deleted is invalid, unless a copy was left on disk or the file is a generated one |
| `RestoreRoundTrip.PackageAndValidate` | workers/apt_restorer.go:144-236 | When the first stage builds a bag, and when the second then finds no error |
| `RestoreMachine.UploadsAreValidated` | workers/apt_restorer.go:119-138 | In every run with working deletion and no open error, each upload follows a clean validation of the same tar file, and each success an upload |
| `RestoreMachine.UnvalidatedUpload` | workers/apt_restorer.go:119-236 | In every state, a delivery uploads a tar file nobody found valid if and only if it goes on with a leftover that was not validated, or Validate cannot open its database for a leftover or new tar file and no error is on record |
| `RestoreMachine.RunIsValidatedIff` | workers/apt_restorer.go:82-260 | In every run, each upload follows a clean validation of the same tar file if and only if no delivery meets that condition |
| `RestoreMachine.WorkLog` | workers/apt_restorer.go:119-249 | Which of validation and upload a delivery adds, and for which tar file, in every state |
| `RestoreMachine.RunValidatesOnlyValid` | workers/apt_restorer.go:194-236 | If the validator never passes a bag that is not valid, only valid tar files are found valid in every run, whatever else is reported |
| `RestoreGuarantee.UploadedBagsAreFaithful` | workers/apt_restorer.go:82-260 | In every run without such a delivery, with a validator that never passes a bag that is not valid, each uploaded tar file was built from files that all have their recorded bytes |
| `RestoreGuarantee.GoodRunsUploadFaithfulBags` | workers/apt_restorer.go:927-940 | In particular with working deletion and an openable database: a wrong file kept by its size never goes out |
| `RestoreMachine.LeftoverTarIsUploaded` | workers/apt_restorer.go:119-138 | A leftover tar file goes out on the record of an earlier validation |
| `RestoreMachine.FailedDeletionUploadsStump` | workers/apt_restorer.go:374-393 | An example: three deliveries with one failed deletion upload a tar file that was never validated |
| `RestoreMachine.RetriesNeverSucceed` | workers/apt_restorer.go:262-334 | After a saved validation or copy error no later delivery succeeds, however well it goes and whether or not its state is saved |
| `RestoreVerdicts.RetrySucceedsIff` | models/restore_state.go:80-85 | A delivery that finds its state can end in success if and only if no validation, copy or record error is on record, or the copy is clean and nothing else is |
| `RestoreVerdicts.WorkFacts` | workers/apt_restorer.go:119-249 | What every delivery leaves on record of each stage: errors, fatal flag, attempt number, start, end and retry, in terms of the state it finds and the answers it gets |
| `RestoreVerdicts.WorkTar` | workers/apt_restorer.go:583-618 | Which tar file is on disk afterwards, and whether its name is known |
| `RestoreVerdicts.DeliveryVerdict` | workers/apt_restorer.go:251-372 | The verdict on every delivery: success if and only if no error is left; given up if and only if the latest stage is fatal or past the limit; requeued otherwise |
| `RestoreVerdicts.FirstDelivery` | workers/apt_restorer.go:251-372 | The first delivery succeeds if and only if the bag is packaged, not objected to and uploaded |
| `RestoreVerdicts.LostStateStartsOver` | workers/apt_restorer.go:448-508 | A delivery that cannot find its state packages anew and has the verdict of a first delivery, whatever lies on disk |
| `RestoreVerdicts.DeliveryKeeps` | workers/apt_restorer.go:262-372 | What is saved of each stage after a delivery, whether the tar file is still there, and that success is recorded |
| `RestoreVerdicts.FailedCopyIsGivenUp` | workers/apt_restorer.go:239-334 | After a failed upload every delivery that gets to the copy stage counts towards the limit and is given up beyond it, even if its upload goes through |
| `RestoreMachine.FailingValidationIsRequeuedForever` | workers/apt_restorer.go:218-230 | A bag that fails validation at every delivery, for whatever reasons, is requeued every time if and only if the limit is at least one |
| `RestoreMachine.FailingPackagingIsGivenUp` | workers/apt_restorer.go:262-334 | Packaging that fails every time, in whatever ways, is requeued up to maxAttempts and given up at the next attempt |
| `RestoreMachine.FinishWithError` | workers/apt_restorer.go:262-334 | Ending in an error changes no error list and no event, and deletes the tar file if it can |
| `RestoreMachine.RestoreWorker.Enter` | workers/apt_restorer.go:119-138 | Where a delivery goes on, and which errors it clears |
| `RestoreMachine.RestoreWorker.Package` | workers/apt_restorer.go:144-190 | The packaging stage on the state |
| `RestoreMachine.RestoreWorker.Validate` | workers/apt_restorer.go:194-236 | The validation stage, with the shadowed error |
| `RestoreMachine.RestoreWorker.CopyToRestorationBucket` | workers/apt_restorer.go:239-249 | The copy stage |
| `RestoreMachine.RestoreWorker.Process` | workers/apt_restorer.go:119-372 | The stages of one delivery, passed from channel to channel |
| `Storing.CopyKeeps` | workers/apt_storer.go:596-711 | Copying marks a file only on an error-free upload listed with its size, and sends the whole content or, for a large file, nothing |
| `Storing.CopyDecides` | workers/apt_storer.go:596-711 | Every copy ends with the file marked or with an error recorded |
| `Storing.StumpBlocks` | workers/apt_storer.go:716-782 | With a temporary file of wrong non-zero size nothing is uploaded, whatever the world answers |
| `Storing.FlawlessCopy` | workers/apt_storer.go:606-615 | Nothing going wrong, a small file or one with a ready temporary file takes one upload |
| `Storing.FlawlessLargeCopy` | workers/apt_storer.go:642-700 | Nothing going wrong, a large file takes two uploads, the first of no bytes |
| `Storing.LargeFileIsStoredIff` | workers/apt_storer.go:716-782 | Nothing going wrong outside, a large file is stored if and only if no stump is in the way |
| `StoreVerdicts.AttemptUploadsIff` | workers/apt_storer.go:618-711 | An attempt makes one upload if and only if uploader, settings, reader and, for a large file, its temporary file are there; otherwise there is an error and none |
| `StoreVerdicts.TakesIff` | workers/apt_storer.go:664-700 | An upload counts if and only if it is reported without an error and listed with the size of the file |
| `StoreVerdicts.FirstAcceptanceCounts` | workers/apt_storer.go:596-711 | A file that needs no temporary file is uploaded up to the first accepted attempt of at most fifteen and marked with its place, or else is left unmarked with an error |
| `StoreVerdicts.LargeFromHere` | workers/apt_storer.go:642-700 | A file is large from one byte above 100 MB on |
| `StoreVerdicts.StumpLeftIff` | workers/apt_storer.go:785-819 | Which extractions leave a stump behind |
| `StoreVerdicts.InterruptedExtractionBlocks` | workers/apt_storer.go:716-819 | After a first extraction that stops half-way no attempt uploads the file |
| `StoreVerdicts.CopyIsFatal` | workers/apt_storer.go:618-641 | A bad UUID, or at the first attempt a missing region or setting, is a fatal error, and there is none if no attempt meets one |
| `StoreVerdicts.SaveGoesTo` | workers/apt_storer.go:409-429 | A Standard file goes to S3 and Glacier only, any other to the region of its option only |
| `Storing.StorageSummary.CreateTempFile` | workers/apt_storer.go:785-819 | What is left on disk in each way copying can end |
| `Storing.StorageSummary.GetFileReader` | workers/apt_storer.go:716-782 | Which temporary files are used, made anew or refused, and what is left in the tar reader |
| `Storing.StorageSummary.SendWithSize` | workers/apt_storer.go:664-705 | The size check after an upload, and errors only at the last attempt |
| `Storing.StorageSummary.DoUploadOnce` | workers/apt_storer.go:618-711 | One attempt, with the shadowed reader |
| `Storing.StorageSummary.CopyToLongTermStorage` | workers/apt_storer.go:596-616 | The loop of at most fifteen attempts ends marked or with an error |
| `Storer.SaveKeeps` | workers/apt_storer.go:376-444 | Saving a file ends with an error unless the file needs no saving or is marked, and marks nothing unchecked |
| `Storer.AnyOrder` | workers/apt_storer.go:226-250 | Concurrent saves of a batch have the same outcome in every order |
| `Storer.NoErrorIsLost` | workers/apt_storer.go:256-268 | If collecting a batch's errors leaves none, no file had one |
| `Storer.LimitZeroNeverEnds` | workers/apt_storer.go:351-374 | With a limit of zero every batch is empty and is followed by itself |
| `Storer.CleanBatches` | workers/apt_storer.go:216-281 | With a positive limit, batches that leave no error have saved every file without one |
| `Storer.BatchesTouch` | workers/apt_storer.go:216-281 | The batches save each file at most once |
| `Storer.PushedBagIsStored` | workers/apt_storer.go:306-342 | In every run, a pushed item has every file that needs saving stored, and replicated if Standard, each on a checked upload |
| `Storer.PushedBagIsStoredWhole` | workers/apt_storer.go:618-711 | If buckets list true sizes, the whole content of each such file was sent |
| `StoreVerdicts.PushedFilesAreUploaded` | workers/apt_storer.go:376-444 | In every run, a pushed item has an accepted upload of every file that the last lookup calls new, changed or listed junk, and a replica if Standard; its last delivery uploads no other file |
| `StoreVerdicts.ToSaveIsUploaded` | workers/apt_storer.go:450-493 | A file that the lookup calls new, changed or listed junk and that is saved without an error has been uploaded and, if Standard, replicated |
| `StoreVerdicts.FlawlessSave` | workers/apt_storer.go:409-444 | Nothing going wrong, a small file that is to be saved is uploaded to exactly the places that are not on record, under its own UUID or that of its earlier version |
| `StoreVerdicts.BadUuidIsFatal` | workers/apt_storer.go:865-876 | A new file with a bad UUID is a fatal error |
| `StoreVerdicts.NotToSaveIsNotUploaded` | workers/apt_storer.go:390-408 | A file without a savable name, or unchanged since an earlier ingest, is not uploaded |
| `StoreVerdicts.UnchangedIsNeverUploaded` | workers/apt_storer.go:487-491 | Such a file is uploaded in no delivery of any run |
| `StoreVerdicts.StoredIsNotUploadedAgain` | workers/apt_storer.go:411-427 | A file that is stored and replicated is uploaded by no later delivery |
| `StoreVerdicts.UnsavedRecordStays` | workers/apt_storer.go:438-443 | If the database cannot be written, the record stays as it was and that is an error |
| `StoreVerdicts.LookupErrors` | workers/apt_storer.go:391-408 | A failed lookup is an error, an unknown UUID a fatal one |
| `StoreVerdicts.EveryFileIsTried` | workers/apt_storer.go:216-281 | Every file is tried in every delivery and what came of it is kept, even if others fail |
| `StoreVerdicts.ManySmallFilesInOneBatch` | workers/apt_storer.go:208-214 | Many small files are read in batches twenty times as long |
| `StoreVerdicts.StoreVerdict` | workers/apt_storer.go:306-342 | The verdict on every delivery: failed at once on a fatal error, failed on any error at the last attempt, requeued on another error, and pushed if and only if there is none |
| `StoreVerdicts.UnknownUuidFails` | workers/apt_storer.go:450-484 | One file with an unknown UUID fails the item at once |
| `Storer.NegativeLimitPushesUnstored` | util/storage/boltdb.go:200-222 | A negative limit pushes an item with no file stored |
| `Storer.RequeuesAreBounded` | workers/apt_storer.go:318-342 | An item is requeued less than MaxAttempts times in a row |
| `Storer.RefusalsUseUpAttempts` | workers/apt_storer.go:200-207 | An item that is only ever refused, or finds its database locked, fails, with nothing stored, exactly when its deliveries reach MaxAttempts |
| `Storer.LargeStandardFile` | workers/apt_storer.go:409-429 | Nothing going wrong, a large Standard file makes exactly three uploads, and its temporary file is removed |
| `Storer.StumpIsForever` | workers/apt_storer.go:838-862 | A stump on disk keeps the file from every later upload in every run |
| `Storer.ApplyLookup` | workers/apt_storer.go:376-408 | Which files are saved, and which lookups are errors |
| `Storer.CopyWhereNeeded` | workers/apt_storer.go:409-427 | Which copies are made for which storage option |
| `Storer.APTStorer.SaveFile` | workers/apt_storer.go:376-444 | Updates the record of this file only |
| `Storer.APTStorer.SaveBatch` | workers/apt_storer.go:216-250 | Saves exactly the files of the batch and returns their results in order |
| `Storer.APTStorer.CollectErrors` | workers/apt_storer.go:256-268 | Adds the files' errors up to the first fatal one |
| `Storer.APTStorer.SaveFiles` | workers/apt_storer.go:216-281 | Batch after batch until one is short |
| `Storer.APTStorer.Process` | workers/apt_storer.go:120-342 | One delivery and its verdict |
| `Glacier.PassKeeps` | workers/apt_glacier_restore_init.go:153-233 | A pass keeps one record a file, takes back neither acceptance nor availability, and says available only of files seen in S3 |
| `Glacier.RestoreOnlyWhenAllSeen` | workers/apt_glacier_restore_init.go:284-318 | In every run, an item is ready only in an error-free pass when each file needed now has been seen in S3 |
| `Glacier.CreatedIffReady` | workers/apt_glacier_restore_init.go:284-318 | A Restore item is created if and only if the item is ready and none is pending |
| `GlacierPasses.PassIs` | workers/apt_glacier_restore_init.go:123-233 | What a pass over distinct files does, for an object or a single file: its calls and sightings in order, the record of every file it names, and no other |
| `GlacierPasses.PassCalls` | workers/apt_glacier_restore_init.go:153-170 | A retrieval is called for if and only if the file lies dormant, its place is known and no call was accepted before |
| `GlacierPasses.PassDecides` | workers/apt_glacier_restore_init.go:284-318 | The decision of every pass, in terms of the records it finds and the answers it gets |
| `GlacierPasses.FirstPass` | workers/apt_glacier_restore_init.go:123-318 | A first pass whose calls are all accepted has called for every file and is followed by polling |
| `GlacierPasses.RetrievalLeadsToRestore` | workers/apt_glacier_restore_init.go:123-318 | Retrievals that are accepted and arrive within the allowed attempts are polled until then and end in a Restore item |
| `Glacier.OneAcceptedRetrieval` | workers/apt_glacier_restore_init.go:521-548 | In every run whose states are saved, no file has two accepted retrieval calls |
| `Glacier.UnsavedStateAsksTwice` | workers/apt_glacier_restore_init.go:341-380 | If the state is not saved, it can have two |
| `Glacier.PassesAreBounded` | workers/apt_glacier_restore_init.go:284-318 | If states are saved, an item goes unfinished for less than MaxAttempts passes |
| `Glacier.UnsavedStatePollsForever` | workers/apt_glacier_restore_init.go:341-380 | If they are not, an item whose retrievals are in progress at every pass goes unfinished through all of them if and only if the next attempt is below MaxAttempts |
| `Glacier.StaleRecordBlocks` | models/glacier_restore_state.go:76-113 | An unavailable record of a file no longer needed keeps the item from being ready in every later pass |
| `Glacier.ReadyUnlessStale` | models/glacier_restore_state.go:200-202 | When every needed file has an available record, all items are in S3 if and only if there is no such leftover |
| `Glacier.SeenInS3MakesReady` | workers/apt_glacier_restore_init.go:196-225 | A pass that sees every needed file in S3 is the last, if no other record is there |
| `Glacier.NoneLeft` | models/glacier_restore_state.go:76-93 | The lists of refused and of missing files are empty exactly when every record is accepted, or available |
| `Glacier.NoneUnrequested` | models/glacier_restore_state.go:106-112 | The list of files not asked for is empty exactly when each has a record |
| `Glacier.RefusedIff` | models/glacier_restore_state.go:76-93 | The list of refused files names exactly those whose record is not accepted |
| `Glacier.AwaitedIff` | models/glacier_restore_state.go:76-93 | The list of missing files names exactly those whose record is not available |
| `Glacier.UnrequestedIff` | models/glacier_restore_state.go:106-112 | The list of files not asked for names exactly those without a record |
| `Glacier.GlacierRestoreState.FindRequest` | models/glacier_restore_state.go:59-70 | The first record of the file, or none |
| `Glacier.GlacierRestoreState.GetRequestRecord` | workers/apt_glacier_restore_init.go:577-591 | Appends a record only if there is none |
| `Glacier.GlacierRestoreState.RestoreRequestNeeded` | workers/apt_glacier_restore_init.go:172-233 | What a HEAD answer does to the record, and whether to ask |
| `Glacier.GlacierRestoreState.RequestFile` | workers/apt_glacier_restore_init.go:521-548 | Calls for a retrieval only if none was accepted |
| `Glacier.GlacierRestoreState.RequestFiles` | workers/apt_glacier_restore_init.go:153-170 | All files of a pass in order; a failed check is an error and skips the file, but not in a single-file item |
| `Glacier.GlacierRestoreState.GetReport` | models/glacier_restore_state.go:76-113 | The three lists in order, and what it means that they are empty |
| `Glacier.GlacierRestoreState.Cleanup` | workers/apt_glacier_restore_init.go:284-318 | The decision after a pass |
| `Glacier.GlacierRestoreState.MakeRequests` | workers/apt_glacier_restore_init.go:123-151 | A pass up to the decision |
| `Glacier.GlacierRestoreState.Process` | workers/apt_glacier_restore_init.go:123-318 | A whole pass |
| `IngestEvents.BuildKeeps` | models/generic_file.go:435-472 | Building keeps every event in place, even when it stops half-way, and never makes two about the same fact |
| `IngestEvents.FirstBuild` | models/generic_file.go:435-633 | On a file without ingest events, building succeeds if and only if the facts for every needed event are there, and appends exactly those events in order |
| `RecordedFacts.FirstBuildStates` | models/generic_file.go:435-633 | Building on a file without ingest events succeeds if and only if all facts are known, and the new events state exactly the digests, identifier, URLs and ingestion of the file |
| `IngestEvents.IdempotentIff` | models/generic_file.go:527-588 | After a success, building again adds nothing if and only if the file needs no saving or some identifier assignment names a URL |
| `IngestEvents.PlainUrlIsBuiltOnce` | models/generic_file.go:560-588 | With an http or https storage URL, building again after a success adds nothing |
| `IngestEvents.OddUrlRepeats` | models/generic_file.go:560-588 | With an odd storage URL every call after the first success succeeds and adds one event |
| `IngestEvents.AfterSuccess` | models/generic_file.go:435-472 | After a success every step but that of an odd storage URL has nothing left to do |
| `IngestEvents.SumKeeps` | models/generic_file.go:639-699 | Checksums are kept, one dated one an algorithm, and building them again after a success adds none |
| `RecordedFacts.SumStates` | models/generic_file.go:639-699 | Each digest is added if and only if there is no dated checksum of its kind, and one that is needed and unknown is an error |
| `IngestEvents.GenericFile.FindByType` | models/generic_file.go:354-363 | Whether there is an event of that type |
| `IngestEvents.GenericFile.FindFileIdentifier` | models/generic_file.go:527-535 | Looks for an assignment by its detail text |
| `IngestEvents.GenericFile.FindStorageUrl` | models/generic_file.go:560-568 | Looks for an assignment by its outcome |
| `IngestEvents.GenericFile.BuildEvent` | models/generic_file.go:479-633 | One step: nothing, an error, or one event appended |
| `IngestEvents.GenericFile.BuildIngestEvents` | models/generic_file.go:435-472 | The six steps in order, up to the first error |
| `Recorder.KnownFileIsOnlyUpdated` | workers/apt_recorder.go:211-262 | A file with an id is only updated in every later attempt, and no child with an id is sent |
| `Recorder.AnsweredFileIsNotCreatedAgain` | workers/apt_recorder.go:307-352 | A file that was answered with an id and stored is in no later creation |
| `Recorder.UnstoredFileIsCreatedAgain` | workers/apt_recorder.go:493-502 | One that could not be stored locally is created a second time |
| `Recorder.UpdatedChildrenAreResent` | workers/apt_recorder.go:355-372 | After an attempt that built everything and was stored, a known file has the same children sent in every attempt |
| `Recorder.OneUuidForOneFact` | workers/apt_recorder.go:211-262 | In every run with working local saves, events sent about the same fact have the same UUID |
| `RecordedFacts.UpdateSendsUnsaved` | workers/apt_recorder.go:558-577 | An update sends exactly the children without an id, each once and in order |
| `RecordedFacts.BuiltIsSent` | workers/apt_recorder.go:211-262 | Whatever an attempt builds, for a known file or a new one, it sends |
| `RecordedFacts.UnstoredStays` | workers/apt_recorder.go:493-502 | An attempt that cannot be stored leaves the record as it was; a file that needs no saving is not sent |
| `RecordedFacts.EventIds` | models/generic_file.go:391-402 | Each event gets the id that the answer gives for its UUID |
| `RecordedFacts.ChecksumIds` | models/generic_file.go:403-416 | Each checksum gets the id that the answer gives for its digest |
| `RecordedFacts.AnsweredInFull` | workers/apt_recorder.go:307-352 | A creation that is answered in full and stored leaves no child without an id |
| `RecordedFacts.RecordedInOneAttempt` | workers/apt_recorder.go:211-352 | Such a file is created with all its children, and no later attempt sends one of them again |
| `Recorder.APTRecorder.WithoutSaved` | workers/apt_recorder.go:558-577 | The children without an id, as `UpdateSendsUnsaved` says which they are |
| `Recorder.SetChecksumId` | models/generic_file.go:344-416 | The first checksum of the digest gets the id, and nothing else changes |
| `Recorder.FirstIsLastIff` | models/generic_file.go:343-351 | The first and the last checksum of a digest are the same if and only if no two share it |
| `Recorder.APTRecorder.MergeSaved` | models/generic_file.go:385-418 | Applies Pharos's answers in order; ids of events and of checksums change and nothing else |
| `Recorder.APTRecorder.SaveFile` | workers/apt_recorder.go:211-262 | One attempt at one file |
| `Recorder.APTRecorder.SaveFiles` | workers/apt_recorder.go:211-262 | Every file is attempted exactly once, in batches of a hundred |
| `Volumes.Conservation` | models/volume.go:90-119 | After any requests, the claimed space is the live reservations plus those replaced, less a whole number of wraps |
| `Volumes.OrderlyRunIsExact` | models/volume.go:90-119 | Without replaced reservations and with enough free space at each request, it is exactly the live reservations |
| `Volumes.SteadyDiskIsNeverOverclaimed` | models/volume.go:75-119 | On a disk that does not shrink nothing wraps, and no more is claimed than was last free |
| `Volumes.GrantedFits` | models/volume.go:75-105 | Which requests are granted, before and after the subtraction wraps |
| `Volumes.ReservingTwiceLeaks` | models/volume.go:99-102 | Reserving twice and releasing once leaves space claimed |
| `Volumes.Volume.ReserveSpace` | models/volume.go:90-105 | The new claims and reservations, and whether space was granted |
| `Volumes.Volume.ReleaseSpace` | models/volume.go:111-119 | The new claims and reservations |
| `FileIndex.IntellectualObject.FindGenericFile` | models/intellectual_object.go:335-344 | However lookups and appends alternate, the last file of that path is found, duplicates included |
| `FileIndex.IntellectualObject.BuildIndex` | models/intellectual_object.go:336-341 | The index answers every path as a search for the last match would |
| `FileIndex.IndexIsStaleIff` | models/intellectual_object.go:335-344 | The index of distinct paths answers rightly for another list of that length if and only if it is the same list |
| `FileIndex.ReplacedFileIsMissed` | models/intellectual_object.go:335-344 | After one file is taken off and another appended, a lookup still finds the first and misses the second |
| `Slots.UnhurriedRunIsExclusive` | workers/apt_storer.go:1012-1062 | If looking and taking are not interleaved and identifiers are distinct, at most one large bag and one bag of many files are stored at any time, and none frees another's slot |
| `Slots.WhoNeedsASlot` | workers/apt_storer.go:1012-1048 | A bag of at most 200 GB and 5000 files is stored at once; any other takes the slot of its kind if it is free and is refused if not |
| `Slots.InterleavedLooksCollide` | workers/apt_storer.go:1020-1029 | If they are, two bags of a kind can be stored at once |
| `Slots.SameIdentifierFreesTheSlot` | workers/apt_storer.go:1051-1062 | A refused second delivery of an object frees the first one's slot |
| `PartSizes.PartsSuffice` | network/s3_upload.go:145-170 | Ten thousand parts of at least 5 MB suffice if and only if the size is at most the int64 limit less 1,000,000 |
| `PartSizes.PartsAreBig` | network/s3_upload.go:145-150 | Parts are of 50 MB up to the size that needs larger ones |

## Left out

- Specifications that forbid a tag, for which the source indexes a list that may be empty; and the fields of the object, such as its storage option, that are set from tags.
- The restorer's path for objects without active files, where only a fatal flag is set; the model records it as cancelled and claims nothing further.
- Crashes in the middle of an attempt; each attempt runs to its end.
- Failures in writing the generated files and manifests to disk; failures in fetching, tarring, uploading, deleting and saving are modelled.
- A validation database left behind by an earlier validation; each validation starts with an empty one.
- Earliest and latest request and expiry times of the Glacier report, and the expiry of files in S3.
- Recording the object itself and its own events; only files are modelled.
- A UUID that changes between store attempts, which would change the name of the temporary file.
- A store record missing from the local database in the recorder, on which the source dereferences nil.
- A database that a refused delivery leaves open is not tracked from process to process; both ways in which the next delivery can go are covered.
- Concurrency inside a single `Reserve` call; each call is one step.
- The long requeue time for high-resource bags, which depends on a marker that the recorded message does not carry.
- HTTP, S3, Glacier, Pharos and NSQ clients, command-line tools, configuration, statistics and logging.
- RestoreRoundTrip.RestoreVerdict: holds for objects with printable paths that are not named like manifests, with both digests checked and no manifest parsed as a tag file, where the identifier does not recur in a path and the clock does not stand at zero; outside this the lemmas on cut names and printing say what fails.
- RestoreGuarantee.UploadedBagsAreFaithful: assumes of each validation report without an error that the bag is valid, which `Validate` is proved to keep; a delivery whose validation does not end is no delivery.
- GlacierPasses.PassIs: for passes in which Pharos names each file once, as it does.
- Storer.RequeuesAreBounded: assumes that the item's state is saved between deliveries.
