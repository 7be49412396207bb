# Camp: publication, recovery and archives

Camp shares versioned workspaces ("capsules") through an object store with conditional writes. Sessions take a writer
lease on a lineage, publish immutable generations, and move the lineage's latest pointer; a journal lets a session
resume after a crash. Around this sit crash-safe file protocols, a portable archive format (CampKit), and the
lifecycle of opening and closing a session. This project models that core in Dafny and proves what holds over every
run of it.

`dafny verify dfyconfig.toml` checks everything.

## How it is modelled

- **The store is the history of its writes.** A revision is the position of the write that made it. `History.Legal`
  says which writes may follow which; it is closed under prefixes, so whatever holds of every legal history holds at
  every crash point. `History.Backed` adds that every pointer write had its generation in place.
- **Others may act before every call.** Each method of `ObjectStores.ObjectStore` first lets other actors add any legal
  writes, and only then acts. A conditional write may come back ambiguous, having landed or not. The repository methods
  are proved to add only legal writes under such interference; the theorems over all runs (`Runs.dfy`, `History.dfy`)
  are lemmas about all legal histories.
- **Quiet and calm stores.** In a quiet store nobody else acts and every read answers; in a calm one writes answer too.
  For these the methods state exactly when they succeed, and with which error they fail.
- **A failing call may have had its effect.** This stands for a crash right before or right after it, in the journal,
  in a directory, and in an effect of closing. In a close the outcome of every call is an input, so where it stops is a
  function of its inputs.
- **The pipeline is an input.** What a publisher's run meets outside store and journal (`Publisher.Work`: the
  preparation steps, the built artifact, the uploaded bytes, the refresh) is a parameter of the run.
- **Files.** A directory maps names to contents or to inodes with link counts; rename, link and unlink are atomic
  steps. Digests and JSON are injective.
- **Streams.** A reader may hand out any chunking, and may report an end or a failure with or without bytes.
- Libraries the code depends on (JSON, digests, the image-name grammar, the metadata comparison) are function
  parameters, so the results hold for every such library.

| file | part of Camp |
|---|---|
| `Domain.dfy`, `Keys.dfy` | documents and object keys |
| `History.dfy`, `Runs.dfy`, `ObjectStore.dfy` | the store, legal histories, and what all of them satisfy |
| `Pointers.dfy`, `Leases.dfy`, `Generations.dfy` | the coordination repositories |
| `Publisher.dfy` | the journaled checkpoint publisher |
| `ContentTransaction.dfy` | the two-document commit of a checkpoint build |
| `OwnershipMarker.dfy`, `OwnershipRemoval.dfy` | ownership of a materialized tree |
| `OpenLease.dfy`, `Sessions.dfy`, `Close.dfy` | opening a session, publishing in it, and closing it |
| `ZstdFrame.dfy`, `ZstdFormat.dfy`, `Limits.dfy`, `Ordering.dfy`, `Manifests.dfy`, `Archives.dfy` | CampKit |
| `Shell.dfy` | shell quoting |

## Where the code falls short of what one would expect

Each of these is a property one would expect to hold without conditions. The code is modelled as it is, and the exact
condition under which the property holds is proved.

- A resumed upload rebuilds the interrupted attempt exactly if the snapshot names its tools or the fallback would find
  none (`Publisher.ResumeRebuildsIff`). Otherwise, once the sidecar landed, the upload is stranded for good
  (`Publisher.MissingFallbackStrands`, `Publisher.StrandedForGood`), and no number of further runs publishes it or
  moves the journal (`Publisher.RetryStranded`).
- Mirroring that fails, or that the process dies in, leaves its intent pending, and from then on no run of the publisher
  publishes or moves the journal (`Publisher.PrepareStep`, `Publisher.RetryStranded`). An undisturbed, entitled run
  publishes whenever what is pending is none of these and can be taken to its end (`Publisher.Publish`).
- Two successful swaps from one record agree while nobody selects an older generation
  (`PointerRuns.SuccessfulSwapsAgree`; `PointerRuns.RollbackBreaksAgreement` is a run where they do not). A further
  write can break the agreement exactly if the live generation is still or again the expected one, for a swap, or at
  least two past it, for a rollback (`PointerRuns.SwapDisagreesIff`, `PointerRuns.RollbackDisagreesIff`).
- Writers of two sessions are accepted in clock order while no renewal shortens a lease
  (`LeaseRuns.AcceptancesOrdered`; `LeaseRuns.ShorteningBreaksOrder` is a run where they are not). A renewal lets
  another session in at a reading already accepted exactly if it brings the expiry forward
  (`LeaseRuns.RenewalOverlapsIff`).
- A listing takes `c/branches/main/latest.json` for the main pointer (`Keys.RecognisedIff`).
- A commit is stopped by the leftovers of an attempt at the same pair (`ContentTransaction.Commit`).
- The ownership marker outlives everything but its own directories exactly if nothing ranked higher lies beside them
  (`OwnershipRemoval.MarkerKeptIff`); a removal that stops after its last two unlinks began can no longer prove
  ownership (`OwnershipRemoval.MarkerOutlives`).
- A close that reads its journal again after the final checkpoint drops the mark that cleanup is running. After a crash
  inside a step the next close resumes exactly if the journal was not read again, nothing else is pending, and the
  resume table knows the step (`Close.CrashResumesIff`); `Close.DieInStep` is the close of any writable session that is
  refused for good in this way, and resumed where the journal could not be read.
- A source that reports its end together with its last bytes has every input refused, a whole single frame included
  (`ZstdFrame.Scan`).
- The frame scanner refuses a descriptor whose bit 4 is set, which section 3.1.1.1.1.3 of RFC 8878 tells decoders
  not to interpret; the code is followed (`ZstdFrame.FrameReader.Advance`).
- Encoding a manifest has no size bound and decoding has one (`Manifests.RoundTrip`).
- A read keeps the expansion bounds exactly if the total before it and its buffer together fit 64 bits
  (`Limits.SoundReadIff`), and so does every sequence of such reads (`Limits.Drain`); `Limits.OverflowingRun` is a run
  of two error-free reads that ends beyond them.

## Model

| member | source | states |
|---|---|---|
| `History.LivePointersAreBacked` | internal/coordination/generations.go:105-148 | in every backed history, at every instant, a live pointer's sidecar is stored and marked fully verified, and its archive is stored with exactly the recorded size and digest |
| `History.LegalPrefix` | internal/coordination/pointers.go:96-196 | a legal history cut off anywhere is legal, so a crash at any point leaves one |
| `History.BackedPrefix` | internal/coordination/generations.go:105-148 | a backed history cut off anywhere is backed |
| `History.RevisionContinuous` | internal/coordination/pointers.go:198-210 | a revision seen at two instants was in place at every instant between them, which is what re-reading a pointer or lease relies on |
| `History.RevisionGone` | internal/coordination/pointers.go:123-160 | once replaced or deleted a revision never comes back, so a write conditional on it can never succeed later |
| `History.Persists` | internal/coordination/generations.go:105-148 | archives and sidecars stay as first written and a pointer, once present, stays present |
| `History.LookupTyped` | internal/coordination/leases.go:301-317 | whatever is found under a key of a legal history is a valid document of that key's kind and identity |
| `PointerRuns.PointerChain` | internal/coordination/pointers.go:96-196 | consecutive writes of a pointer are parent-linked with growing generations, or an explicit strict rollback; without rollbacks always the former |
| `PointerRuns.GenerationsIncrease` | internal/coordination/pointers.go:96-160 | over any run of creations and swaps the generations at a key strictly increase |
| `PointerRuns.SwappedOnce` | internal/coordination/pointers.go:123-160 | a record is replaced at most once in any run |
| `PointerRuns.ReadBackIsSwap` | internal/coordination/pointers.go:140-160 | without rollbacks, an ambiguous swap that reads its document back was the write that replaced the expected record |
| `PointerRuns.SuccessfulSwapsAgree` | internal/coordination/pointers.go:123-160 | two swaps from the same record that both report success, by write or by read-back, committed equal documents |
| `PointerRuns.RollbackBreaksAgreement` | internal/coordination/pointers.go:162-196 | a legal run with one rollback in which two such swaps committed different documents |
| `PointerRuns.SwapDisagreesIff` | internal/coordination/pointers.go:123-160 | a further swap can make an old swap from the same record read back something else if and only if the live generation is the expected one |
| `PointerRuns.RollbackDisagreesIff` | internal/coordination/pointers.go:162-196 | a further rollback can make an old swap read back something else if and only if the live generation is at least two past the expected one |
| `LeaseRuns.Exclusion` | internal/coordination/leases.go:92-166 | over every run a lease passes to another session only by releasing that very revision or by a lease created at or after its expiry |
| `LeaseRuns.TakeoverAfterExpiry` | internal/coordination/leases.go:125-166 | without a release, the first session's lease had expired by the time the later one was created, through any number of renewals |
| `LeaseRuns.AcceptancesOrdered` | internal/coordination/leases.go:211-226 | at one instant at most one token is accepted; across a run, tokens of two sessions are accepted at strictly ordered clock readings |
| `LeaseRuns.ShorteningBreaksOrder` | internal/coordination/leases.go:228-267 | a legal run in which a renewal that shortens a lease lets two sessions be accepted at the same reading |
| `LeaseRuns.RenewalOverlapsIff` | internal/coordination/leases.go:228-267 | another session can be accepted at a reading at which a renewed lease was, if and only if the renewal brings the expiry forward |
| `ObjectStores.SameRevisionSameObject` | internal/coordination/pointers.go:123-160 | a revision names one document for good, across anything others do |
| `Pointers.Revalidate` | internal/coordination/pointers.go:198-210 | succeeds only on the live record, reports a change only when it is not live, and writes nothing; in a calm store it answers exactly so |
| `Pointers.Create` | internal/coordination/pointers.go:96-121 | writes at most once and only where no pointer is; success, also after an ambiguous write, means the pointer is live on return; in a quiet store a write that landed is reported, and a calm one creates exactly a valid pointer where none is |
| `Pointers.Replace` | internal/coordination/pointers.go:140-196 | writes at most once, over exactly the expected record, which was live before; a reported change means nothing was written; a calm store replaces exactly the live record |
| `Pointers.Settle` | internal/coordination/pointers.go:112-120 | an ambiguous write is reported as done only if the pointer is live, and in a quiet store exactly if the stored pointer is the written one |
| `Pointers.CompareAndSwap` | internal/coordination/pointers.go:123-160 | only a valid child of the expected pointer is written, and anything else is an invalid document; success means it is live on return and, without rollbacks, that it replaced the expected record; a calm store swaps exactly over the live record |
| `Pointers.SelectHistorical` | internal/coordination/pointers.go:162-196 | exactly a strictly older generation of the same lineage may be selected; a calm store selects it exactly over the live record |
| `Leases.Read` | internal/coordination/leases.go:37-50 | a token is the stored lease and its revision, and is valid for its lineage |
| `Leases.Revalidate` | internal/coordination/leases.go:211-226 | accepts only while the token names the stored lease and the lease has not expired, and reports a lost lease only when that is not so; a calm store answers exactly so |
| `Leases.Renew` | internal/coordination/leases.go:228-267 | rewrites only heartbeat and expiry, to the clock and the clock plus the time to live, only over the token's own revision; a lost lease is reported only if the token is not held, and in a calm store the renewal succeeds exactly if it is |
| `Leases.Release` | internal/coordination/leases.go:269-294 | deletes at most the token's own revision; success means it is gone, a lost lease that it is not held; in a calm store the release succeeds exactly if it is held |
| `Leases.DeleteRevision` | internal/coordination/leases.go:280-294 | one conditional deletion; an ambiguous one is settled by a look, so that in a quiet store it stays ambiguous only if nothing was deleted |
| `Leases.TryPut` | internal/coordination/leases.go:125-160 | a lease is put only over none, over an expired one, or over the one it renews, whatever happened between read and write; a conflict means that this did not hold; in a quiet store a put that landed is reported |
| `Leases.AcquireRound` | internal/coordination/leases.go:125-166 | one round overwrites nothing but a lease that had expired by its clock; it is refused only because an unexpired lease was in place at an instant of the round, and tried again only because some lease was; a calm store answers exactly so |
| `Leases.FinishAcquire` | internal/coordination/leases.go:168-209 | the pointer was exactly as observed at an instant after the lease was in place; otherwise only the own lease is deleted, and in a calm store it is gone |
| `Leases.AcquireLoop` | internal/coordination/leases.go:92-166 | every lease it overwrites had expired by its own clock; it touches nothing but its own lease; a held lease is reported only if an unexpired one was in place, and giving up only if some lease was in place in every round |
| `Leases.Acquire` | internal/coordination/leases.go:52-64 | success implies an instant, after the lease was written, at which the pointer was the observed record, or absent if none was, and grants exactly the requested lease up to the clock plus the time to live; refusals have their reasons; a calm store grants exactly if no unexpired lease is in place and the pointer is as observed, and else leaves no lease |
| `Leases.AcquireBranchFrom` | internal/coordination/leases.go:66-90 | success implies the source was the same record without interruption from before the lease was in place until return, and that the branch had no pointer; refusals have their reasons; a calm store grants exactly such a request |
| `Generations.VerifyArchive` | internal/coordination/generations.go:271-299 | success means the stored archive has exactly the recorded size and digest; a calm store succeeds exactly then |
| `Generations.PutSettled` | internal/coordination/generations.go:105-148 | an immutable write is made at most once; an ambiguous one that landed is found again where the backend reports digests; a calm store succeeds exactly if nothing else is in the place |
| `Generations.PutArchive` | internal/coordination/generations.go:105-130 | writes at most the exact archive; success means it is stored with the recorded size and digest |
| `Generations.PutSidecar` | internal/coordination/generations.go:130-148 | the sidecar is written only over an archive in place; success means both back the generation's pointer |
| `Generations.PutAndVerify` | internal/coordination/generations.go:105-148 | success means the generation backs its pointer: verified sidecar and exact archive, both stored; in a calm store the right bytes succeed exactly for valid, loadable metadata with nothing else in its place |
| `Generations.ReadMetadata` | internal/coordination/generations.go:150-163 | metadata is returned only if stored, valid for its key and fully verified, and then its generation is in place; a calm store returns exactly what is stored |
| `Generations.SidecarsAreBacked` | internal/coordination/generations.go:105-148 | in every legal history a stored sidecar is fully verified and its archive stored |
| `Publisher.Journal.RecordIntent` | internal/journal/store.go:153-170 | an intent becomes pending, and a commit intent is kept in the ghost list of announcements, or the call fails with or without that effect |
| `Publisher.Journal.RecordFact` | internal/journal/store.go:224-285 | a fact settles its intent and installs the snapshot; a pointer commit moves baseline and revision only from a complete record; or the call fails with or without that effect |
| `Publisher.ResumeRebuildsIff` | internal/app/checkpoint.go:244-294 | a resumed upload rebuilds metadata and pointer field for field, if and only if the tools are named or the missing fallback finds none |
| `Publisher.MissingFallbackStrands` | internal/app/checkpoint.go:325-361 | otherwise, once the first sidecar landed, the resumed upload is stranded at every later instant: another pointer's sidecar is stored where its own belongs |
| `Publisher.StrandedForGood` | internal/coordination/generations.go:105-148 | what is stranded stays so, and its pointer is never backed |
| `Publisher.NotYetWritten` | internal/app/checkpoint.go:363-390 | while the baseline of an announced commit is live, no own write is above the baseline, so the announced commit has not been written |
| `Publisher.BaselineStood` | internal/app/checkpoint.go:363-390 | a baseline found in place later, at a revision that old, was in place all along |
| `Publisher.CommitWritten` | internal/app/checkpoint.go:392-422 | a commit that wrote at most once over the baseline keeps the session accounted for, and the baseline had been in place from the start |
| `Publisher.OnceAnAttempt` | internal/app/checkpoint.go:363-460 | two own pointer writes announced under one attempt are one write |
| `Publisher.EveryWriteAnnounced` | internal/app/checkpoint.go:265-294 | every own pointer write of an accounted session was announced under an attempt begun before, over a generation that was stored when it was written |
| `Publisher.RefreshServing` | internal/app/checkpoint.go:424-460 | serving is refreshed under an intent of its own, which is settled only by a refresh; the snapshot does not change and the session stays accounted for |
| `Publisher.WriteCommit` | internal/app/checkpoint.go:392-422 | the store gains at most the announced pointer, once, over the baseline; success means it is live on return |
| `Publisher.CommitPointerAndRefresh` | internal/app/checkpoint.go:392-460 | an adopted pointer is committed without any write; otherwise at most the announced one is written, once and over the baseline; a reported publication is that pointer, live and backed during the call, and an undisturbed call that may commit reports it |
| `Publisher.RecordCommit` | internal/app/checkpoint.go:392-460 | the commit on record makes the published pointer the journal's new base, pointer and revision, with its checkpoint marked published, and its refresh is announced |
| `Publisher.UploadAndCommit` | internal/app/checkpoint.go:265-294 | a reported publication is the pointer of the uploaded metadata, live and backed during the call; a stranded upload is not published and leaves the journal as it was |
| `Publisher.AnnounceAndCommit` | internal/app/checkpoint.go:265-294 | the commit of a generation in the store is announced and at most once written, over the baseline |
| `Publisher.ResumePendingUpload` | internal/app/checkpoint.go:325-361 | a reported publication is the pointer rebuilt from the intent and the durable checkpoint, which the pending upload matches in state, number, attempt, key and digest; a stranded upload is not published and leaves the journal as it was |
| `Publisher.ResumePendingPointer` | internal/app/checkpoint.go:363-390 | the announced pointer is written at most once, only if the baseline is live when the call begins and only if it is still what the durable checkpoint describes; if it is live itself it is adopted without a write |
| `Publisher.PrepareRegistrySeal` | internal/app/checkpoint.go:616-750 | the preparation steps write nothing to the store, move no baseline, begin one new attempt unless resumed, which must fit 64 bits, and end with exactly the build announced after every step worked and, in a new attempt, the lease was accepted again; undisturbed they do |
| `Publisher.PrepareStep` | internal/app/checkpoint.go:616-750 | a step, announced now or pending already, completes only if it worked, under its attempt, and leaves it uncommitted; mirroring is followed by a second acceptance of the lease; an unknown outcome is recorded, and any other failure leaves the step pending |
| `Publisher.BuildAndUpload` | internal/app/checkpoint.go:200-294 | a published first attempt has the journal's base as its parent, the next number, the artifact's digest and size, the clock, the session's tools and identity, and was live and backed during the call; undisturbed, what can be uploaded and committed is published |
| `Publisher.RecordBuild` | internal/app/checkpoint.go:200-265 | the built generation is the durable checkpoint, with its path and key, before its upload is announced |
| `Publisher.Resume` | internal/app/checkpoint.go:106-200 | whatever is pending is taken up, or a new attempt begins; the session stays accounted for, something happens only if what is pending is what the durable snapshot describes, and stranded work and pending mirroring are neither published nor moved |
| `Publisher.Admit` | internal/app/checkpoint.go:106-140 | a run goes on only for a writable, consistent session with a number left, after an instant at which its own lease was accepted and before any event of its own; in a calm store exactly then |
| `Publisher.TakeUp` | internal/app/checkpoint.go:163-200 | a pending refresh is finished for exactly the published checkpoint, and anything else is resumed; nothing happens unless what is pending is what the durable snapshot describes |
| `Publisher.Publish` | internal/app/checkpoint.go:106-294 | one run from any accounted journal keeps it accounted for; it writes, journals or reports only after its own lease was accepted, and only if what was pending is what the durable snapshot describes, which it keeps; a reported publication is the next generation on the base, live and backed during the run, or the one whose refresh was pending; an undisturbed run publishes whatever can be taken to its end |
| `Publisher.Session` | internal/app/checkpoint.go:106-460 | over any number of interrupted and repeated runs, whatever others do, each logical attempt writes the session's one pointer at most once, every own write was announced under an attempt and backed when it was made, generation numbers strictly increase, and every own event came after the session's own lease was accepted at the clock of one of the runs |
| `Publisher.RetryStranded` | internal/app/checkpoint.go:325-361 | a stranded upload and pending mirroring are retried in vain, however often: no run publishes and the journal never moves |
| `Keys.PathInjective` | internal/domain/lineage.go:16-47 | over all valid capsules, branches and generations, pointer, lease, archive and sidecar keys are pairwise disjoint and determine their identity |
| `Keys.MetadataPrefixIs` | internal/coordination/generations.go:349-355 | the sidecar prefix, through path cleaning, is the lineage's own generations directory |
| `Keys.PathIsParts` | internal/coordination/generations.go:84-103 | splitting a key at its slashes gives back exactly the parts it was built from |
| `Keys.ListingFindsPointers` | internal/coordination/pointers.go:85-94 | a listing recognises every pointer key for what it is and no other valid key at all |
| `Keys.RecognisedIff` | internal/coordination/pointers.go:85-94 | what a listing recognises is that pointer's own key, if and only if it does not spell the main lineage as a branch |
| `ContentTransaction.Validate` | internal/checkpoint/builder.go:291-309 | accepts exactly a marker that names both documents once under their staged names |
| `ContentTransaction.Verify` | internal/checkpoint/builder.go:311-321 | succeeds only when both final files hold the announced bytes |
| `ContentTransaction.Finish` | internal/checkpoint/builder.go:225-289 | moving the documents into place keeps each one's new bytes under its final or staged name at every step |
| `ContentTransaction.Recover` | internal/checkpoint/builder.go:249-289 | interrupted or not it keeps the pair the directory stands for; completed, exactly that pair is in place |
| `ContentTransaction.RecoverRepeatedly` | internal/checkpoint/builder.go:249-289 | any number of interrupted recoveries and a completed one end in exactly the announced pair, and on a reliable directory one is enough |
| `ContentTransaction.Stage` | internal/checkpoint/builder.go:195-222 | until the marker's rename nothing changes; it completes exactly when no leftover blocks exclusive creation |
| `ContentTransaction.Commit` | internal/checkpoint/builder.go:169-247 | interrupted anywhere, the files are together the old pair or together the new one; it completes exactly when the pair is in place or nothing is in the way, and then no partial file of an older version is left |
| `OwnershipMarker.Directory.Reconcile` | internal/capsule/ownership.go:288-347 | finishes a publication whose temporary holds exactly the marker and refuses any other temporary untouched |
| `OwnershipMarker.Directory.Create` | internal/capsule/ownership.go:349-427 | a crash or failure anywhere leaves nothing, an unfinished temporary, or a fully written marker; another file that takes the final name meanwhile is never replaced, and is adopted exactly if it is this very marker |
| `OwnershipMarker.Directory.GiveWay` | internal/capsule/ownership.go:386-404 | where the final name is taken the run leaves that file as it is, and succeeds, with its own temporary gone, exactly if it is the marker |
| `OwnershipMarker.Directory.LinkAndUnlink` | internal/capsule/ownership.go:386-427 | from the written temporary on, every interruption leaves the marker fully written |
| `OwnershipMarker.Directory.Publish` | internal/capsule/ownership.go:146-184 | a fully written marker survives every interruption; an uninterrupted run publishes exactly from a fully written marker, or from a clean directory where no other file takes the name first; a published one is not touched |
| `OwnershipMarker.PublishRepeatedly` | internal/capsule/ownership.go:146-184 | after any number of interruptions one more run ends with the marker, one link and no temporary, and a further run changes nothing |
| `OwnershipRemoval.SplitAt` | internal/capsule/ownership.go:792-867 | an entry with a rank of its own is removed after all ranked lower and before all ranked higher |
| `OwnershipRemoval.SortedSteps` | internal/capsule/ownership.go:792-867 | sorting a listing loses and adds no unlink |
| `OwnershipRemoval.MarkerOutlives` | internal/capsule/ownership.go:792-867 | with nothing outranking its directories the marker is there after exactly all but the last two unlinks |
| `OwnershipRemoval.MarkerLostEarly` | internal/capsule/ownership.go:792-867 | otherwise some interruption loses the marker with other entries still there |
| `OwnershipRemoval.MarkerKeptIff` | internal/capsule/ownership.go:792-867 | over every point of interruption the marker stays while anything besides its directories does, if and only if nothing outranks them where they lie |
| `OwnershipRemoval.RemoveContents` | internal/capsule/ownership.go:792-854 | an interruption anywhere leaves exactly the tree after some number of unlinks in order, nothing on another device is unlinked, and a calm removal on one device completes |
| `OwnershipRemoval.RemoveEntry` | internal/capsule/ownership.go:800-850 | a directory is removed only once it is empty, and an entry on another device not at all |
| `OwnershipRemoval.Parent.Restore` | internal/capsule/ownership.go:691-707 | a mismatched tree is put back whole or left in quarantine whole |
| `OwnershipRemoval.Parent.RemoveOwned` | internal/capsule/ownership.go:616-707 | only a tree whose device and inode are those recorded and whose marker has the recorded token, path, device and inode loses entries; any other keeps them and is put back if this call moved it; no other name is touched; a calm attempt removes the tree exactly if it is owned and on one device |
| `OwnershipRemoval.RemoveRepeatedly` | internal/capsule/ownership.go:616-707 | over any number of interrupted attempts the tree is untouched, or quarantined with its marker or with nothing but the empty chain, or gone |
| `OwnershipRemoval.RemoveFinally` | internal/capsule/ownership.go:616-707 | a calm attempt after any number of interrupted ones leaves nothing of an owned tree on one device, unless an interruption among the last two unlinks left the empty chain, which it refuses |
| `OpenLease.ValidateTokenIff` | internal/app/open.go:855-878 | an observed lease is accepted if and only if it is the one the acquisition writes, under a real revision, and unexpired |
| `OpenLease.AcquireForOpen` | internal/app/open.go:1957-2020 | an uninterrupted open holds the lease its intent describes, saw its pointer live, or, for a branch or a first root, absent, and records the matching generation, base and pointer; in a calm store every request that may be granted is |
| `OpenLease.RevalidatePointers` | internal/app/open.go:793-818 | the source is live at the end and, for a branch, its own pointer was absent at an instant of the call; in a calm store exactly then |
| `OpenLease.Observe` | internal/app/open.go:779-853 | reconciliation writes nothing, accepts only the very lease while its pointer is seen live and, for a branch, was seen absent, and yields what the uninterrupted open would have, the source decision included; a mismatch is reported only if no such lease is held, and a calm store accepts all that is acceptable |
| `OpenLease.FindLease` | internal/app/open.go:824-878 | a stored lease is found exactly if it is the one that the acquisition writes and unexpired, with its revision |
| `OpenLease.Adopt` | internal/app/open.go:832-848 | what is recorded is the session as it was, its own lease, the generation it opened from, and its pointer and revision exactly if it is of the session's lineage |
| `OpenLease.AcquiredIsAcceptable` | internal/app/open.go:779-853 | what an undisturbed acquisition leaves is acceptable to a reconciliation before the lease expires |
| `OpenLease.BuiltIsConsistent` | internal/app/open.go:779-815 | an intent that a successful acquisition wrote is never found inconsistent |
| `OpenLease.SameRevisionIff` | internal/app/open.go:824-846 | a lease seen twice has one revision if and only if nothing touched its key in between |
| `OpenLease.QuietKeepsLease` | internal/app/open.go:824-846 | if no one else writes this session's lease, the reconciled lease and revision are the acquired ones |
| `OpenLease.InterruptAndReconcile` | internal/app/open.go:1078-1091 | wherever an open was interrupted, a successful reconciliation yields what the uninterrupted run records for the lease in place, with the pointer seen live, and a branch seen absent, afterwards; if the open had succeeded, it is that open's lease, generation, base, pointer and expected revision, and the same lease revision exactly if nothing touched the lease; undisturbed, both succeed and agree |
| `Sessions.Open` | internal/app/open.go:1957-2020 | an opening writes no pointer, and what it records makes a session that the publisher can account for; undisturbed it succeeds, with its lease accepted and its base the observed generation |
| `Sessions.OpenAndPublish` | internal/app/checkpoint.go:106-460 | a session opened, also by reconciling an interrupted acquisition, and published in any number of times: each attempt moves the pointer at most once, every pointer it ever writes was announced, backed, and written after its own lease was accepted, its numbers increase, and what is pending at the end can be taken up |
| `Sessions.FirstCheckpoint` | internal/app/checkpoint.go:106-460 | undisturbed, a session opened on a pointer, on a branch source or on nothing, interrupted or not, publishes its first checkpoint as the child of what it opened, live and backed |
| `Close.IndexAgrees` | internal/app/close.go:210-273 | the resume table agrees with the step list for every session |
| `Close.StepsAreThorough` | internal/app/close.go:227-273 | the step list stops the workspace, forwarders, services and supervisor in this order, then removes artifacts if they are to go, releases the lease if there is one, and ends with removing a created tree or keeping any other, each once |
| `Close.EffectsFit` | internal/app/close.go:128-273 | whatever a close selects, it tries no effect that does not fit the session |
| `Close.SelectPending` | internal/app/close.go:182-199 | a close resumes exactly at the one pending step, when cleanup is under way and the table knows it |
| `Close.RunStep` | internal/app/close.go:128-152 | a step's effect comes between its intent and its fact, a failing one is recorded, and what the calls do decides exactly where the step stops and what the journal then holds |
| `Close.RunSteps` | internal/app/close.go:128-152 | the effects tried and the stop are those the outcomes of the calls decide, step by step |
| `Close.RestIsNext` | internal/app/close.go:128-152 | the effects a close tries are the steps from its first one on, in order and without gaps |
| `Close.Decide` | internal/app/close.go:87-127 | cleanup is reached only with a published final checkpoint on record for a writable session that is kept, and otherwise a discard of its own kind, exactly if every call before it succeeds; reading the journal again drops the running mark |
| `Close.RunToEnd` | internal/app/close.go:128-166 | the session is recorded as closed only after the last step, and every stop leaves exactly its intents and its mark |
| `Close.Run` | internal/app/close.go:50-166 | for every outcome of every call: where the close stops, which effects it tries and what it leaves; a refused one touches nothing; it closes only after the last step, and does whenever every call succeeds; every effect fits the session (a tree is removed only if created for it, else kept), and a calm close that starts over does all that is to be done, in order, the tree last |
| `Close.NextClose` | internal/app/close.go:182-225 | after a stop inside a step with nothing else pending the next close resumes there if and only if cleanup is marked under way and the table knows the step |
| `Close.CloseAgain` | internal/app/close.go:50-225 | two closes, for every outcome of every call of both: unless the first closes the session, the second makes exactly the selection that the first one's stop determines, and tries exactly the effects of that selection |
| `Close.SelectsNext` | internal/app/close.go:182-225 | what a stopped close leaves in the journal is resumed, started over or refused exactly as its stop, its mark and what else is pending say |
| `Close.CrashResumesIff` | internal/app/close.go:87-225 | after a first close that stops inside a step the next one resumes there if and only if the journal was not read again after the checkpoint, nothing else is pending, and the table knows the step |
| `Close.DieInStep` | internal/app/close.go:50-225 | a process that dies in a resumable step of a writable session leaves a close that is refused for good if the journal was read again, and otherwise one that a calm close completes with the remaining steps |
| `Close.RunRepeatedly` | internal/app/close.go:50-225 | over any sequence of closes, whatever their calls do, no cleanup effect precedes the decision, none is tried that does not fit the session, a closed session has had every step succeed, and once a close is refused nothing changes any more |
| `ZstdFrame.FrameFits` | internal/campkit/archive.go:704-884 | a frame that is cut off lies within the data |
| `ZstdFrame.CutIsStable` | internal/campkit/archive.go:704-884 | what follows a frame never moves its end |
| `ZstdFrame.FrameReader.Advance` | internal/campkit/archive.go:777-853 | a full segment is passed, or refused exactly where the one-shot cut of section 3.1.1 of RFC 8878 refuses |
| `ZstdFrame.WithinFrame` | internal/campkit/archive.go:731-775 | the bytes taken from the source never reach beyond the first frame |
| `ZstdFrame.FrameReader.Read` | internal/campkit/archive.go:731-775 | bytes pass unchanged, the reader's own end comes exactly at the end of the first frame, and an end from the source alone means there is no whole frame |
| `ZstdFrame.FrameReader.RequirePhysicalEof` | internal/campkit/archive.go:868-884 | succeeds only if the input ends where its first frame does, and then never reports a format error |
| `ZstdFrame.Scan` | internal/campkit/archive.go:704-884 | for every input, chunking and buffer sizes nothing beyond the first frame is emitted, at an end exactly the first frame has been, and only a single frame is accepted; a steady source and enough reads reach a verdict, which for a source that reports its end alone accepts exactly a single frame, and for one that reports it with its last bytes refuses everything |
| `ZstdFormat.CutsFrame` | internal/campkit/archive.go:704-884 | every frame written from its fields as section 3.1.1 of RFC 8878 lays them out is cut off exactly where it ends, whatever follows, or refused exactly if an exact cut finds a dictionary or no checksum |
| `ZstdFormat.FrameReads` | internal/campkit/archive.go:704-884 | whatever is cut off is such a frame: its fields can be read back and written to the same bytes |
| `ZstdFormat.CutIff` | internal/campkit/archive.go:704-884 | a prefix is cut off if and only if it is a frame |
| `ZstdFormat.ScanFormat` | internal/campkit/archive.go:704-884 | over every chunking only an input that is one frame is accepted, and of an input that begins with a frame at most that frame comes out; a steady source that reports its end alone is accepted if and only if it is one frame |
| `Limits.Allowed` | internal/campkit/archive.go:689-697 | the allowed expansion is the smaller of 2^63-1 and slack plus ratio times compressed bytes, with no overflow on the way |
| `Limits.CountingReader.Read` | internal/campkit/archive.go:660-676 | with room left a read hands on what the source gives within the room; at the limit it hands on nothing and a further byte is an error; the count never overflows |
| `Limits.RatioReader.Read` | internal/campkit/archive.go:689-702 | a read hands on what the decoder yields, and is an error exactly if the running total, as 64 bits count it, fails the checks |
| `Limits.Drain` | internal/campkit/archive.go:654-702 | over every sequence of reads the compressed count stays within its limit; if, at each read made, the total before it and its buffer fit 64 bits, the total is counted exactly, within both bounds after each error-free read, and an error beyond them |
| `Limits.WrappedTotalPasses` | internal/campkit/archive.go:689-702 | a total of 2^63 bytes is out of bounds and passes every check |
| `Limits.PassesMeans` | internal/campkit/archive.go:689-702 | while the total fits 64 bits the checks accept exactly what is within both bounds |
| `Limits.SoundReadIff` | internal/campkit/archive.go:689-702 | from a total within bounds, whatever a read of some size may yield passes only within bounds, if and only if the total and the buffer fit 64 bits |
| `Limits.OverflowingRun` | internal/campkit/archive.go:654-702 | a run of two error-free reads that ends out of bounds |
| `Ordering.AnySortAgrees` | internal/campkit/manifest.go:543-552 | with distinct keys any sorted rearrangement, from any order and by any algorithm, is the same |
| `Manifests.ValidatePlatforms` | internal/campkit/manifest.go:228-245 | the loop accepts exactly one or two supported platforms with distinct keys |
| `Manifests.ValidatePayloads` | internal/campkit/manifest.go:258-296 | the loop accepts exactly valid payloads with distinct identities, distinct and prefix-free paths, and a total that fits 64 bits |
| `Manifests.PathStaysInside` | internal/campkit/manifest.go:486-511 | from every directory a valid payload path leads below its payloads folder, and no step on the way leads above it |
| `Manifests.ValidateImages` | internal/campkit/manifest.go:398-435 | the loop accepts exactly valid images with distinct identities, one platform per reference and one room per platform |
| `Manifests.Validate` | internal/campkit/manifest.go:136-173 | accepts exactly the valid manifests |
| `Manifests.PayloadKeysDistinct` | internal/campkit/manifest.go:604-610 | validation makes payload sort keys distinct, because paths hold no zero byte |
| `Manifests.ValidPermutes` | internal/campkit/manifest.go:136-173 | validity does not depend on the order of platforms, payloads or images, nor on time zones |
| `Manifests.NormaliseUnique` | internal/campkit/manifest.go:533-553 | the normal form is the one result of sorting, stable or not, from any order |
| `Manifests.NormaliseIdempotent` | internal/campkit/manifest.go:533-553 | normalising twice is normalising once |
| `Manifests.MarshalCanonical` | internal/campkit/manifest.go:533-553 | a valid manifest is encoded in its normal form and any other is refused |
| `Manifests.DecodeCanonical` | internal/campkit/manifest.go:555-580 | accepts exactly the canonical encodings within the size bound |
| `Manifests.CanonicalIff` | internal/campkit/manifest.go:533-553 | two valid manifests encode alike if and only if they differ at most in the order of their lists and in time zones |
| `Manifests.RoundTrip` | internal/campkit/manifest.go:533-580 | decoding an encoded manifest gives its normal form if and only if the encoding fits the bound of the decoder |
| `Manifests.AcceptedIsCanonical` | internal/campkit/manifest.go:555-580 | whatever decoding accepts is valid, its own normal form, and encodes to the same bytes |
| `Archives.VerifyPayloads` | internal/campkit/archive.go:404-478 | accepts exactly the declared payloads in path order with declared sizes and digests, within the limits of their roles, and hands on the trust evidence among them |
| `Archives.VerifyIntegrity` | internal/campkit/archive.go:360-504 | everything but trust: accepts exactly the intact archives, and hands on the evidence they carry |
| `Archives.Verify` | internal/campkit/archive.go:360-530 | accepts exactly a canonical manifest followed by exactly its payloads, in one frame that ends cleanly within the streaming limits, whose trust is not claimed or is evaluated without an error on the entry under the manifest's own evidence path; an unsupported or failing evaluation is an error |
| `Archives.EvaluateTrust` | internal/campkit/archive.go:509-530 | a manifest that claims no trust is unverified, a claim without an evaluator is an error, and any other is the evaluation of the evidence the archive carries, or its error |
| `Archives.EvidenceIsBound` | internal/campkit/archive.go:404-530 | an archive that claims trust carries evidence, and it is the entry under the path its manifest names |
| `Archives.ExportPayloads` | internal/campkit/archive.go:110-147 | each payload is written once from its own source in path order, if and only if every source matches |
| `Archives.Export` | internal/campkit/archive.go:68-159 | writes a complete archive of the manifest exactly when every source is present and matches |
| `Archives.ExportedIsIntactIff` | internal/campkit/archive.go:360-500 | an exported archive is accepted if and only if it is within the limits, its metadata matches, and its manifest fits the decoder's bound |
| `Archives.PermittedIff` | internal/campkit/archive.go:404-478 | whether an exported archive is within the limits, each payload's by its role, can be read off the manifest and the sources before exporting |
| `Archives.NoCollision` | internal/campkit/import.go:147-158 | distinct prefix-free paths never meet an existing file or directory |
| `Archives.PayloadsAreSeparate` | internal/campkit/manifest.go:258-296 | the payload entries of a complete archive have distinct prefix-free names |
| `Archives.Extract` | internal/campkit/import.go:121-174 | extraction of a complete archive into an empty folder never collides and, unless something fails, writes exactly the payloads; it succeeds only if every entry is declared |
| `Archives.VerifyExported` | internal/campkit/archive.go:360-530 | an export is accepted if and only if its manifest, sources and size are within the limits and its trust, read off the sources beforehand, is not claimed or is evaluated without an error; the manifest comes back in its normal form |
| `Archives.ShipKit` | internal/campkit/import.go:29-174 | export, verification and extraction in one: not exported exactly if a source does not match; refused, with the folder left empty, exactly if a limit is exceeded or claimed trust cannot be evaluated; otherwise with the verdict on its evidence and, unless something fails, exactly the sources in the folder |
| `Shell.LexReplaced` | internal/capsule/bootstrap.go:668-670 | inside single quotes, replaced text is read back as the original, embedded quotes included |
| `Shell.LexRendered` | internal/cli/shell_recipe.go:7-17 | either quoting function's output is read as exactly the one original argument, empty or not |
| `Shell.LexJoined` | internal/capsule/bootstrap.go:630-638 | quoted arguments joined by spaces are read back as exactly the original list |
| `Shell.ShellCommand` | internal/capsule/bootstrap.go:626-627 | a command string becomes one argument of `/bin/sh -c` |
| `Shell.NamedCommand` | internal/capsule/bootstrap.go:620-641 | strings and lists of strings are written as commands that are read back as exactly those words; anything else is an error |

## Left out

- Adapters: DevPod, Hauler, SSH, registries and the object-store backends are foreign calls. A revision is taken to be
  fresh per write, as in the file backend; a backend whose revision is a content hash could repeat one.
- Late writes: an ambiguous write has landed by the time the call returns or never lands.
- Waiting: the retry loop of acquisition has no bound of its own; the model gives it as many rounds as the caller's context allows.
- Publisher.PrepareStep: mirroring, image capture and sealing have an intent, an effect that may fail, and a fact; what they do to registries, pending children of the services, and the remote data plane, are not modelled.
- Publisher.PrepareRegistrySeal: does not model the drift checks on pending preparation requests, nor pending service children.
- Publisher.Journal.RecordFact: keeps the journal's own lease, and does not model concurrent renewals recorded by the supervisor, nor the other reducers of the journal.
- Directory sync and power loss that reorders writes: steps are atomic and ordered.
- OwnershipRemoval.Parent.RemoveOwned: no other process changes the tree during removal, so the checks that a directory was not replaced stand for failures; the earlier path check of the caller is not modelled.
- OpenLease.Observe: receipts are not compared.
- Close.Run: the session's mode, lease and materialization do not change between closes.
- Manifests.ValidateImages: the grammar of image names is a parameter; UTF-8 validity is not modelled, strings are bytes.
- Archives.ShipKit: whether the written file is within the compressed, expanded and ratio limits is an input, decided by what compression makes of it; staging and publishing of the imported folder are left out.
- Archives.Verify: tar and zstd decoding are abstract; bytes between the end of the tar data and the end of the frame are not modelled; a path that the tar header cannot hold is a parameter.
- Limits.RatioReader.Read: the decoder is a script of what it takes and yields; how zstd decides that is not modelled.
- Shell.LexJoined: covers quoting only; a first word containing an equals sign, unquoted, would be an assignment.
- Workspace, forwarder, image and hydration effects of opening, inventories, read models, configuration, setup and the command line: plumbing or easy folds.
