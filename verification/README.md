# hwskill: a verified model of the release log, its consumers and the patch tools

hwskill publishes a directory of skills as a sequence of immutable releases. A
publisher derives hash-chained events from successive catalogs and appends one
record per release to a feed. Independent consumers read that feed without locks,
check it again from scratch, fold it into update items, and hand those items over
in batches that are acknowledged exactly once. Beside this stand a validator and
printer for Git patches, the synonym closure of the topic pages, and the
publication of directory trees under names that others may also create.

The model follows that structure:

- `Options`, `TextOrder`: optional values and the order of text.
- `Documents`, `Artifacts`, `Derivation`: parsed documents, the publisher's check of
  an artifact, and the derivation of a record's events.
- `FeedCheck`, `Agreement`: the consumer's own check of a snapshot, and why every
  derived log passes it.
- `Announcements`, `Acceptance`: what a release announces and when it is refused, and what
  acceptance means, both said without the code's own case distinctions.
- `Filtering`, `Delivery`, `FilterLaws`: update items, what they tell a consumer, and what
  the user's filters leave of them.
- `Store`, `StoreLaws`, `PublisherLog`, `PublisherRuns`, `Recovery`, `Paths`, `Reverification`,
  `Stages`, `Settling`, `Publishing`: the durable store as a class whose methods make
  one atomic write each, the publisher as a state machine over those writes with its
  invariant, crash recovery, and the publisher's own methods proved against it. A
  process dies before any durable write: the store's `fuse` counts the writes it has
  left, so every property holds for every crash point.
- `Reader`: the lock-free reader. Each request of a read happens at its own instant
  of an arbitrary publisher run.
- `ConsumerLog`, `ConsumerRuns`, `UpdateStore`, `Sharing`, `FirstRun`, `Superseding`: the
  tables, their transactions, `prepare_updates` and `acknowledge` on top of them, what the
  first run decides, and when a superseded batch returns.
- `EndToEnd`: publisher, reader and consumer together. `Limits`: concrete inputs on
  which the system does less than one might expect.
- `UnifiedDiff`, `DiffWriting`, `PatchApplication`, `GitPaths`, `GitPatch`, `PatchDecoding`:
  the diff validator, which diffs it accepts, what they do to files, and the printer with
  its decoder. The diff format is the "Diff -u or -U Output Format" section of the `diff`
  utility in POSIX.1-2017; the code is stricter on empty ranges.
- `Topics`, `Trees`, `Publication`: synonym closure, tree manifests and scan lists,
  and publication without replacement.

Digests are functions passed in with an injectivity hypothesis. The stored state
changes only through the modelled writes.

## Where the code falls short of what one might expect

- A committed feed without any event is refused by a reader that was given no
  expected feed identity, since only events name the feed (`Limits.SilentFeedRefused`;
  exact condition in `Agreement.SnapshotAccepted`).
- Preparation does not check that the pages of the events exist. A candidate without
  them stays uploaded for ever and blocks every later release
  (`Limits.PagelessReleaseStuck`; exact condition in `Recovery.RecoveryOutcome`, over
  runs in `Recovery.BlockedForEver`).
- Rolling back to a release that was still on its way to activation commits that
  release and then fails, because the copy loaded before the recovery has no commit
  time (`Limits.PendingRollbackRefused`; exact condition in
  `Publishing.Publisher.Rollback`).
- A superseded batch can be acknowledged after all: exactly if its snapshot is read again
  before any acknowledgement (`Limits.SupersededAcknowledged`; exact condition in
  `Superseding.SupersededAckedIff`; never on a growing feed, `ConsumerRuns.SupersededNever`).
- A skill that enters the catalog as deprecated is announced by an event that is held
  back for as long as the skill is not active (`Delivery.SurvivesByHead`).
- A patch does not contain a mode that does not change (`PatchDecoding.UnchangedModeLost`).

## Model

| member | source | states |
|---|---|---|
| Derivation.ReadHistory | src/hwskill/publishing/events.py:51-64 | the loop over the records returns what the log last said about each subject: the last event of each, by ID, type and revision |
| Derivation.SortEvents | src/hwskill/publishing/events.py:177 | the result is in strictly increasing ID order and holds exactly the given events |
| Derivation.DeriveSkills | src/hwskill/publishing/events.py:116-138 | refuses exactly if a skill disappeared; otherwise the loop appends exactly the events that the decision table gives for the skills |
| Derivation.DeriveAdvice | src/hwskill/publishing/events.py:140-175 | refuses exactly on a disappeared, re-drafted or republished recommendation; otherwise appends exactly the events of the recommendations |
| Derivation.DeriveEvents | src/hwskill/publishing/events.py:67-177 | equals the derivation: refused exactly if some subject is refused, else each subject that emits appears once, in ID order, whatever order the loops visit the subjects in |
| Derivation.Release.ArrangeCovers | src/hwskill/publishing/events.py:116-177 | for every set of subjects the arrangement holds exactly their events, sorted strictly by ID, so at most one event per subject |
| Derivation.Release.DeriveUnique | src/hwskill/publishing/events.py:177 | a strictly sorted sequence of exactly the subjects' events is the derivation: nothing depends on the visiting order |
| Derivation.Release.EventIds | src/hwskill/publishing/events.py:38-48 | under an injective digest, events of different subjects in one record have different IDs |
| Artifacts.CheckCatalog | src/hwskill/publishing/service.py:139-171 | accepts exactly the catalogs with distinct IDs whose entries have the stated digest, carry the item's lifecycle and are repeated by their install document under its own digest, and returns the IDs |
| Artifacts.ValidateArtifact | src/hwskill/publishing/service.py:139-196 | accepts exactly the artifacts whose commit, catalog, install documents and recommendations refer to each other correctly and whose status document, if it names an input, names the requested one; a ready recommendation needs active skills |
| Artifacts.FindItemAgrees | src/hwskill/sharing/v1.py:78-83 | the consumer's first-match lookup and the publisher's last-wins index give the same item when IDs are distinct |
| Artifacts.FindAdviceAgrees | src/hwskill/sharing/v1.py:86-91 | the same for recommendations |
| FeedCheck.CheckHead | src/hwskill/sharing/v2.py:149-159 | accepts exactly a positive head whose records are numbered 1 to head and end in the named release |
| FeedCheck.CheckEvents | src/hwskill/sharing/v2.py:177-193 | the inner loop accepts exactly if every event is in its record, refers to its release, is new, chains to the previous event of its subject and is a legal transition from it |
| FeedCheck.CheckLog | src/hwskill/sharing/v2.py:160-193 | the whole record loop accepts exactly the logs that are correct record by record, with distinct release IDs |
| FeedCheck.CheckSubject | src/hwskill/sharing/v2.py:110-141 | accepts exactly if the event's documents say what its type, revision and skill list say, under their recomputed digests |
| FeedCheck.ValidateSnapshot | src/hwskill/sharing/v2.py:144-202 | accepts exactly the snapshots with a non-blank feed identity, a correct head and log and, with subjects checked, correct subjects and a current identity |
| FeedCheck.DistinctEventIds | src/hwskill/sharing/v2.py:180-182 | in an accepted log no event ID occurs twice |
| FeedCheck.CrossIds | src/hwskill/sharing/v2.py:180-182 | events of different records of an accepted log have different IDs |
| FeedCheck.RecordSorted | src/hwskill/sharing/v2.py:175-182 | the weak order check and the uniqueness check together make every record strictly sorted |
| Agreement.ChainedIdIsNew | src/hwskill/publishing/events.py:38-48 | hash-chain acyclicity: an ID that hashes the subject's previous ID occurs nowhere in the log before it, or a descent along previous IDs would never end |
| Agreement.DerivedOk | src/hwskill/publishing/events.py:116-177 | every event of a derived record passes the consumer's per-event check where the log then stands |
| Agreement.DerivedSynced | src/hwskill/publishing/events.py:116-177 | the invariant between runs: after a record, each skill's last event has the semantic of the new catalog unless both are withdrawn, and each recommendation's last event matches its status |
| Agreement.PublishedAccepted | src/hwskill/sharing/v2.py:161-193 | every log of successive derivations passes the consumer's separately written record loop, whatever the hash order inside a record, and keeps the invariant |
| Agreement.CarriedSubject | src/hwskill/sharing/v2.py:42-141 | the subject check looks only at the event's catalog, install documents and, for a recommendation, the recommendation file |
| Agreement.PublishedSubjects | src/hwskill/sharing/v2.py:194-198 | every event of a derived log also passes the subject checks against the documents of its release |
| Agreement.FeedIdForced | src/hwskill/sharing/v2.py:192-193 | a log accepted under one feed identity is accepted under another exactly if it has no events or the two are equal |
| Agreement.SnapshotAccepted | src/hwskill/sharing/v2.py:144-202 | a consumer accepts a snapshot of a publisher's log if and only if its feed identity is not blank and the log has no events or the identity is the publisher's |
| Announcements.RefusedIff | src/hwskill/publishing/events.py:116-175 | where the log is in sync, a valid artifact is refused if and only if a skill or recommendation of the previous one is gone, or a recommendation that was withdrawn is ready again; an unchanged artifact never is |
| Announcements.AdviceBySources | src/hwskill/publishing/events.py:140-175 | for any previous artifact and any log, agreeing or not: what either calls withdrawn is never published again, what either calls published is withdrawn once and not published twice |
| Announcements.DerivedAnnounces | src/hwskill/publishing/events.py:77-177 | the derived events are one for each catalog item that is new or differs in source, install method or lifecycle (unless it stays withdrawn) and one for each recommendation that became ready or was withdrawn, each with that item's digest, type and addresses, and nothing else |
| Announcements.NextDerives | src/hwskill/publishing/events.py:67-177 | both for the next release of any publisher's log, from its last artifact and the new one alone |
| Announcements.RecordAnnounces | src/hwskill/publishing/events.py:67-177 | every record of a publisher's log announces exactly what changed between its artifact and the one before |
| Acceptance.LogMeaning | src/hwskill/sharing/v2.py:160-193 | a log is accepted if and only if its records are numbered, sorted and addressed as they must be and each event, against the last earlier event of its subject, hashes that event's ID, has a new revision and makes one of the six legal successions, or opens its subject in one of three ways |
| Acceptance.AcceptanceMeaning | src/hwskill/sharing/v2.py:42-202 | acceptance of a snapshot both ways, without the checks themselves: head, log, and for every event a catalog with recomputed digests and the item or recommendation whose source, install method, lifecycle, status and skills its revision hashes, with install documents that repeat it |
| Acceptance.SameCourse | src/hwskill/sharing/v1.py:215-249 | an event ID commits to its subject's whole course: accepted logs that share an ID share feed, subject and every earlier type and revision of that subject |
| Acceptance.SharedSkillEvent | src/hwskill/sharing/v2.py:110-141 | two accepted snapshots that share a skill event agree on the skill's source, install method and lifecycle |
| Acceptance.SharedAdviceEvent | src/hwskill/sharing/v2.py:110-141 | two accepted snapshots that share a published recommendation agree on its skills |
| Acceptance.ValidMeaning | src/hwskill/publishing/service.py:139-196 | the publisher's check of an artifact is the consumer's checks of its documents for every item at once, plus declared lifecycles and recommendations that name catalog skills, active ones once ready |
| Filtering.LatestStates | src/hwskill/sharing/filtering.py:14-32 | the fold over all events gives the last lifecycle of every skill and the state of every recommendation |
| Filtering.CollectAdditions | src/hwskill/sharing/filtering.py:204-211 | the added skills of one recommendation that no earlier one took |
| Filtering.RecordItems | src/hwskill/sharing/filtering.py:197-217 | one record's items are exactly one per leading event: each published recommendation with the added skills it takes, and every other event alone |
| Filtering.SortItems | src/hwskill/sharing/filtering.py:218 | the items in strictly increasing (sequence, item ID) order, none lost |
| Filtering.BuildItems | src/hwskill/sharing/filtering.py:149-218 | fails exactly on an invalid snapshot or a cursor outside it; otherwise returns the matching items of the interval after the cursor, in order |
| Filtering.AnswerUnique | src/hwskill/sharing/filtering.py:149-218 | that description determines the answer |
| Filtering.SourcesDiffer | src/hwskill/sharing/filtering.py:111-112 | items of different leading events have different item IDs |
| Delivery.AdviceFollowsHistory | src/hwskill/sharing/filtering.py:27-31 | the recommendation half of the index is the last event of each recommendation |
| Delivery.LatestIsHead | src/hwskill/sharing/filtering.py:14-32 | on a publisher's log the event-folded index is the head catalog: every skill has its head lifecycle, and the active recommendations are exactly the ready ones |
| Delivery.Partition | src/hwskill/sharing/filtering.py:197-217 | each surviving event of a record is in its leader's group and in no other |
| Delivery.ItemOfEvent | src/hwskill/sharing/filtering.py:163-217 | every unsuppressed event after the cursor is in an item of its record |
| Delivery.OneItemPerEvent | src/hwskill/sharing/filtering.py:163-217 | two items of a snapshot that share an event are the same item |
| Delivery.WithdrawalDelivered | src/hwskill/sharing/filtering.py:57-97 | every withdrawal after the cursor is in an item that shows the lifecycle as withdrawn |
| Delivery.SurvivesByHead | src/hwskill/sharing/filtering.py:163-191 | on a publisher's log the head catalog alone decides what is handed over: an addition exactly while its skill is active there, an update exactly while it is or still tells its lifecycle, a recommendation exactly while it is ready with all its skills active, a withdrawal always |
| Delivery.AdvisedItem | src/hwskill/sharing/filtering.py:57-130 | a recommendation's item has its page, place, title, body and topics, its skills' purposes, and only additions beside it |
| Delivery.SingleItem | src/hwskill/sharing/filtering.py:57-130 | any other item has one event's ID, page, place and type, and for a skill that skill's name, summary, purposes and install URL |
| Delivery.SkillRefsSorted | src/hwskill/sharing/filtering.py:66 | the skills of an item are exactly those its events mention, strictly sorted |
| Delivery.PurposesMembers | src/hwskill/sharing/filtering.py:70 | the purposes of an item are those of its skills in the leading event's release |
| Delivery.FirstInactiveIs | src/hwskill/sharing/filtering.py:83-97 | an item without a withdrawal shows the lifecycle of its first skill that is not active, and active if there is none |
| Delivery.PromotionActive | src/hwskill/sharing/filtering.py:166-178 | an item of a published recommendation exists only while every skill it names is active in the latest state, and shows active |
| Delivery.ShownLifecycle | src/hwskill/sharing/filtering.py:83-97 | an item that holds a skill's event shows that skill's latest lifecycle, or its withdrawal if the event is one |
| Delivery.LaterCursor | src/hwskill/sharing/filtering.py:149-163 | the items after a cursor are the items after any earlier cursor whose sequence exceeds it |
| Delivery.QuietKeeps | src/hwskill/publishing/events.py:116-138 | a skill without events over a stretch of the log keeps its lifecycle over that stretch |
| Delivery.NoStalePromotion | src/hwskill/sharing/filtering.py:149-218 | eventual consistency: over any series of unfiltered handovers up to the head, each built on its own state of the growing log, the last item for a skill shows its lifecycle in the head catalog |
| FilterLaws.ItemTells | src/hwskill/sharing/filtering.py:57-130 | an item's change types and skills are exactly those of the events behind its event IDs |
| FilterLaws.LifecycleFilter | src/hwskill/sharing/filtering.py:142-143 | the answer to chosen lifecycles is the part of the unfiltered answer that shows one of them |
| FilterLaws.SkillFilter | src/hwskill/sharing/filtering.py:136-137 | the answer to chosen skills is the part with an event that mentions one of them |
| FilterLaws.PurposeFilter | src/hwskill/sharing/filtering.py:134-135 | the answer to chosen purposes is the part that shares one |
| FilterLaws.TopicFilter | src/hwskill/sharing/filtering.py:144-145 | the answer to chosen topics is the part that shares one |
| FilterLaws.KindFilter | src/hwskill/sharing/filtering.py:138-141 | the answer to a single change type is the part that holds an event of it |
| FilterLaws.CompoundFilter | src/hwskill/sharing/filtering.py:138-141 | the answer to a compound change type is the part whose events have exactly those types |
| FilterLaws.AnyChange | src/hwskill/sharing/filtering.py:138-141 | several change types are alternatives: the answer is the union of their answers |
| FilterLaws.AllFilters | src/hwskill/sharing/filtering.py:133-146 | filters of several sorts restrict together: the answer is the intersection of their answers |
| Store.FileReleaseStore.BindNamespace | src/hwskill/publishing/store.py:466-477 | binds once; afterwards refuses exactly a different namespace |
| Store.FileReleaseStore.SaveCandidate | src/hwskill/publishing/store.py:488-523 | writes the candidate, refusing exactly a changed immutable field, a changed commit time, or a state that goes back or skips one |
| Store.FileReleaseStore.PendingCandidates | src/hwskill/publishing/store.py:552-566 | returns exactly the uncommitted candidates, and fails only if one is damaged or there are two |
| Store.FileReleaseStore.ValidatePendingChain | src/hwskill/publishing/store.py:568-584 | accepts exactly a candidate that continues the log: it names the sequence before its own and is the one after the head, or the head itself left activated by a crash |
| Store.FileReleaseStore.FreezeArtifact | src/hwskill/publishing/store.py:586-628 | keeps the first bytes under a release ID and refuses exactly different ones |
| Store.FileReleaseStore.UploadSnapshot | src/hwskill/publishing/store.py:649-706 | publishes the frozen snapshot's bytes once, refusing exactly a changed snapshot or a different existing release |
| Store.FileReleaseStore.Activate | src/hwskill/publishing/store.py:748-764 | points current at the release, refusing exactly to go behind the head or to replace another release of the same sequence |
| Store.FileReleaseStore.AppendRecord | src/hwskill/publishing/store.py:785-794 | writes a record once; a repeated identical write changes nothing, a different one is refused |
| Store.FileReleaseStore.PublishFeedHead | src/hwskill/publishing/store.py:806-821 | moves the head by exactly one existing record; an earlier sequence changes nothing |
| Store.FileReleaseStore.Rollback | src/hwskill/publishing/store.py:766-776 | points current at a committed, intact release and changes nothing else |
| Store.FileReleaseStore.ReadFeed | src/hwskill/publishing/store.py:823-867 | returns the records 1 to head exactly if each is complete and agrees with its candidate, its namespace and its release |
| StoreLaws.CandidateReads | src/hwskill/publishing/store.py:525-550 | a stored candidate reads back if and only if it stands under the ID its inputs hash to and has the publication time as commit time exactly from activation on |
| StoreLaws.SaveChanges | src/hwskill/publishing/store.py:488-523 | saving over a candidate changes its state by at most one of four moves and its commit time at most once, to the publication time, of an activated candidate |
| StoreLaws.FreezeAgain | src/hwskill/publishing/models.py:118-121 | a commit time can be frozen again at the same instant and at no other |
| StoreLaws.RecordReads | src/hwskill/publishing/store.py:823-867 | a record reads back if and only if it is its candidate's, at its place, of this feed, and its release stands intact with every page and machine file its events point to |
| StoreLaws.ActivationRefused | src/hwskill/publishing/store.py:748-764 | the entry point never moves behind the head, and no second release takes a sequence that the head or the entry point has |
| StoreLaws.HeadMoves | src/hwskill/publishing/store.py:806-821 | the head moves by one existing record; where it is or was it may be set again, but not to another release |
| StoreLaws.PendingContinues | src/hwskill/publishing/store.py:568-584 | a pending candidate continues the log in exactly three ways: first, right after the head, or as the head that a crash left activated |
| PublisherLog.NextKeeps | src/hwskill/publishing/service.py:412-448 | each write of _advance, from any point a crash may have left, keeps the invariant |
| PublisherLog.StepKeeps | src/hwskill/publishing/service.py:249-326 | every durable write of every publisher process keeps the invariant |
| PublisherRuns.LogShape | src/hwskill/publishing/store.py:552-584 | in every reachable state at most one candidate is uncommitted, records fill 1 to head or one more that is the activated candidate's, and current names a committed release, or exactly the pending one with its sequence once that is checked or activated |
| PublisherRuns.FeedPublished | src/hwskill/publishing/store.py:785-821 | the committed feed of every such state is a log of successive derivations with distinct release IDs, served by the release directory |
| PublisherRuns.StepGrows | src/hwskill/publishing/store.py:785-821 | records, releases, snapshots and prepared candidates are never rewritten, and candidate states never go back |
| PublisherRuns.FeedGrows | src/hwskill/publishing/store.py:806-821 | any later feed has every earlier feed as a prefix |
| Recovery.NextDecreases | src/hwskill/publishing/service.py:412-448 | every recovery write lowers the number of writes left, which is at most eight |
| Recovery.ReferencesArePages | src/hwskill/publishing/service.py:392-394 | of the reference check only the pages are open after preparation; the machine files are always there |
| Recovery.NextExists | src/hwskill/publishing/service.py:412-448 | an uncommitted candidate has a next write unless it is uploaded and lacks a reference |
| Recovery.RecoveryOutcome | src/hwskill/publishing/service.py:412-448 | recovery ends in the committed release that preparation fixed if and only if the frozen snapshot holds every page its events point to; otherwise the candidate stays uploaded for ever and the log does not move |
| Recovery.BlockedForEver | src/hwskill/publishing/service.py:412-448 | over every run after a candidate without its pages was prepared, no process does more than upload it: at most two writes follow, none once it is uploaded, and records, head, current and every other candidate stay |
| Recovery.OnlyRecovery | src/hwskill/publishing/service.py:249-254 | while a candidate is pending, its next recovery write is the only write any process makes |
| Recovery.CrashesConverge | src/hwskill/publishing/service.py:249-267 | however many processes crash on the way, the writes made while a candidate is pending lead nowhere but to the state of an uninterrupted recovery |
| Reverification.InvReadable | src/hwskill/publishing/store.py:823-867 | read_feed succeeds in every state that keeps the invariant |
| Reverification.SnapshotAlwaysVerified | src/hwskill/publishing/service.py:328-385 | re-deriving any known candidate from its frozen snapshot and the log before it gives its stored events |
| Reverification.VerifiedMeaning | src/hwskill/publishing/service.py:328-385 | what verifies, both ways: a frozen snapshot with the candidate's digests, valid for its inputs, that derives the candidate's events again from the log before it |
| Reverification.UploadVerifiedIff | src/hwskill/publishing/service.py:386-410 | so only the uploaded release, its references and its record can fail a re-verification |
| Stages.SuccessorSaves | src/hwskill/publishing/service.py:412-448 | save_candidate never refuses the next state of a pending candidate |
| Stages.UploadIsNext | src/hwskill/publishing/service.py:413-422 | the upload is the next recovery write, or repeats one without effect |
| Stages.ActivateIsNext | src/hwskill/publishing/service.py:428-433 | the activation is never refused and is the next recovery write, or repeats one |
| Stages.AppendIsNext | src/hwskill/publishing/service.py:434-443 | the record append is never refused and is the next recovery write, or repeats one |
| Stages.PublishIsNext | src/hwskill/publishing/service.py:445-447 | publishing the head is never refused, including after a crash between it and the last save |
| Settling.HistoryVerifies | src/hwskill/publishing/service.py:239-247 | the candidate of every committed record loads and re-verifies with its record |
| Settling.PendingChains | src/hwskill/publishing/store.py:568-584 | validate_pending_chain accepts the pending candidate of every reachable state |
| Settling.RetryConverges | src/hwskill/publishing/service.py:249-254 | a publish that completes after any number of crashes leaves the interrupted release and the log as the crash-free one would have |
| Settling.StaleVerifies | src/hwskill/publishing/service.py:450-461 | the copy that rollback loaded before the recovery re-verifies afterwards if and only if its commit time was already frozen |
| Settling.PreparableIff | src/hwskill/publishing/service.py:269-326 | exactly which requests preparation accepts, without the derivation: a self-consistent artifact that drops nothing of the head release and revives no withdrawn recommendation |
| Publishing.Publisher.VerifySnapshot | src/hwskill/publishing/service.py:328-385 | accepts exactly if events, sequence, digests, artifact and re-derivation agree with the candidate |
| Publishing.Publisher.VerifyCandidateRelease | src/hwskill/publishing/service.py:328-410 | in an untampered store, accepts exactly if the release holds what the events refer to and, if asked for, the record is the candidate's |
| Publishing.Publisher.Advance | src/hwskill/publishing/service.py:412-448 | its effect is a sequence of recovery writes from whatever state the candidate is in; it ends committed, crashed within eight writes, or with no write possible |
| Publishing.Publisher.BindAndValidateHistory | src/hwskill/publishing/service.py:239-247 | fails exactly on another namespace, never on history |
| Publishing.Publisher.RecoverPending | src/hwskill/publishing/service.py:252-256 | commits the pending candidate exactly as recovery must, or fails exactly if its pages are missing |
| Publishing.Publisher.Prepare | src/hwskill/publishing/service.py:269-326 | refuses exactly the requests that are not preparable; otherwise the new state is the old one with the frozen artifact and the candidate that the derivation determines |
| Publishing.Publisher.Publish | src/hwskill/publishing/service.py:249-267 | finishes exactly for publishable requests, in the one state that request and store determine, with the request's release committed; a repeated request changes nothing; a crash needs a death among at most 19 writes |
| Publishing.Publisher.Rollback | src/hwskill/publishing/service.py:450-461 | succeeds exactly if the release was activated or committed when the call began and the pending candidate can be completed; failing, it has still committed the pending candidate |
| Reader.FeedReader.ReadRecords | src/hwskill/sharing/feed_reader.py:203-213 | the record loop, each request at its own instant, returns the records of the head state within the event and request limits, and fails exactly beyond them |
| Reader.DocumentUrls | src/hwskill/sharing/feed_reader.py:225-232 | the loop over the events gathers each event's machine file, its catalog and its skills' install documents |
| Reader.FeedReader.ReadDocuments | src/hwskill/sharing/feed_reader.py:225-233 | the document requests, each at its own instant and in any order, return the files of the head state's releases |
| Reader.FeedReader.ReadSnapshot | src/hwskill/sharing/feed_reader.py:175-237 | lock-free readers linearise: with any publisher, recovery and rollback writes between its requests, a read returns the feed of the instant the head was read, or fails exactly if that feed is beyond the limits or its identity is not known |
| Reader.LaterReadsExtend | src/hwskill/sharing/feed_reader.py:175-237 | a later read extends every earlier one |
| Reader.DocumentsServe | src/hwskill/sharing/feed_reader.py:225-233 | the files that are fetched are all that the subject checks need |
| UpdateStore.SQLiteUpdateStore.SavePending | src/hwskill/sharing/store.py:644-682 | replaces the consumer's pending row, refusing exactly a batch that does not fit the cursor and configuration or whose ID another consumer holds |
| UpdateStore.SQLiteUpdateStore.CommitAcknowledgement | src/hwskill/sharing/store.py:720-779 | one transaction moves the cursor, writes the acknowledgement and removes the pending row; an acknowledged ID is only read back |
| UpdateStore.PendingAlwaysDecodes | src/hwskill/sharing/store.py:219-291 | in untampered tables the pending row always decodes and fits its consumer |
| UpdateStore.AckAlwaysDecodes | src/hwskill/sharing/store.py:178-216 | so does every acknowledgement, whose end never exceeds the cursor |
| UpdateStore.PendingReads | src/hwskill/sharing/store.py:219-291 | a pending row reads back if and only if its columns are its batch's own and the batch continues its consumer's cursor, feed and filters |
| UpdateStore.AckReads | src/hwskill/sharing/store.py:178-216 | an acknowledgement answers if and only if it is the consumer's own and ends at or before its cursor; otherwise it is reported as corrupt |
| ConsumerLog.ChainDistinct | src/hwskill/sharing/service.py:181-191 | each batch ID hashes the ID acknowledged before it, so IDs along a chain never repeat, even for empty intervals on one snapshot |
| ConsumerLog.PendingIsNew | src/hwskill/sharing/store.py:728-763 | a live pending batch is never already acknowledged, so the early return cannot hide it |
| ConsumerLog.PendingDiffer | src/hwskill/sharing/store.py:660-682 | two consumers never hold the same pending batch ID, so the unique constraint cannot fail |
| ConsumerLog.MoveKeeps | src/hwskill/sharing/store.py:600-779 | every committed transaction keeps the invariant: intervals that continue each other, IDs that chain, and an acknowledgement table equal to what was acknowledged |
| ConsumerRuns.ExactlyOnce | src/hwskill/sharing/store.py:754-779 | over all interleavings of prepare, re-prepare, crash, acknowledge and repeat, each sequence number after the start up to the cursor is in exactly one acknowledged interval |
| ConsumerRuns.NothingOutside | src/hwskill/sharing/store.py:754-779 | no acknowledged interval reaches before the start or beyond the cursor |
| ConsumerRuns.NoRepeatedId | src/hwskill/sharing/service.py:181-191 | no batch ID occurs twice among a consumer's acknowledged batches |
| ConsumerRuns.SupersededNever | src/hwskill/sharing/store.py:644-682 | if a consumer's snapshots never go back, a superseded batch ID is never pending or acknowledged again (a sufficient condition; the exact one is the next two rows) |
| Superseding.RevivedIff | src/hwskill/sharing/service.py:251-271 | a superseded batch is pending again under its old ID if and only if its snapshot is read again before anything is acknowledged |
| Superseding.SupersededAckedIff | src/hwskill/sharing/store.py:644-779 | a superseded batch is acknowledged after all if and only if its snapshot was read again before any acknowledgement and the next acknowledgement followed with no other save between |
| Sharing.PendingRederived | src/hwskill/sharing/service.py:261-269 | a pending batch on the same snapshot re-derives exactly, so the pending-mismatch error cannot occur |
| Sharing.SaveAccepted | src/hwskill/sharing/store.py:644-682 | save_pending never refuses a batch that prepare_updates built |
| Sharing.PrepareAgain | src/hwskill/sharing/service.py:205-271 | preparing again on the same snapshot returns the same batch and changes nothing |
| Sharing.BatchIs | src/hwskill/sharing/service.py:172-202 | the batch that is handed out, field by field, and the eight things its ID hashes |
| Sharing.UpdateService.PrepareUpdates | src/hwskill/sharing/service.py:205-271 | refuses without a trace exactly for the source's errors in their order, else hands out the one batch that tables and snapshot determine; a crash leaves at most the new consumer row |
| Sharing.UpdateService.Acknowledge | src/hwskill/sharing/service.py:274-285 | takes exactly the pending ID or an acknowledged one; a duplicate acknowledgement changes nothing and answers as before |
| FirstRun.BaselineRun | src/hwskill/sharing/service.py:233-262 | a first run with the baseline succeeds for every accepted snapshot of the feed URL, starts at its head, and hands out an empty batch |
| FirstRun.ReplayRun | src/hwskill/sharing/service.py:233-262 | a first run with a replay start is refused exactly if the start is beyond the head; its batch is the answer from that start |
| FirstRun.RepeatedChoice | src/hwskill/sharing/service.py:212-225 | repeating the first run's choice returns the same batch and changes nothing until an acknowledgement, and is refused from then on; another choice is refused at once |
| FirstRun.NothingBeforeStart | src/hwskill/sharing/service.py:233-271 | no batch of a consumer, pending or acknowledged, holds an item from before its start |
| FirstRun.BaselineForEver | src/hwskill/sharing/service.py:233-271 | over every run, a baseline consumer never sees an item of the feed as it stood when it started |
| FirstRun.ReplayForEver | src/hwskill/sharing/service.py:233-271 | over every run, a replaying consumer is handed each number after its start, up to its cursor, in exactly one acknowledged batch |
| EndToEnd.KeepsUp | src/hwskill/sharing/service.py:205-271 | the acknowledged batches of a consumer of a publisher's run are an unbroken series of handovers up to its cursor |
| EndToEnd.LastWordIsTrue | src/hwskill/sharing/filtering.py:149-218 | whatever crashes, recoveries, rollbacks and repeats lie behind it, the last item an unfiltered consumer at the head was handed for a skill shows the skill's lifecycle in the head release |
| EndToEnd.SupersededOnFeed | src/hwskill/sharing/store.py:644-682 | a consumer that reads a publisher's feed read after read never acknowledges a superseded batch |
| Limits.SilentFeedRefused | src/hwskill/sharing/feed_reader.py:214-223 | a concrete feed without events that is refused when no feed identity is expected, and accepted when it is |
| Limits.PagelessReleaseStuck | src/hwskill/publishing/service.py:269-448 | a concrete run from an empty store whose candidate, accepted by preparation, lacks a page: recovery reaches a state with it uploaded from which no write of any process is possible |
| Limits.PendingRollbackRefused | src/hwskill/publishing/service.py:450-461 | a concrete run whose pending candidate has its pages: rolling back to it is refused although the same call leaves it committed and at the head |
| Limits.SupersededAcknowledged | src/hwskill/sharing/store.py:600-779 | a concrete run from empty tables (start, save, save of a newer snapshot, save of the older again, acknowledge) that ends with the superseded ID acknowledged |
| UnifiedDiff.SplitJoins | skills-src/l2/local/gitcode-pr-review-fetch/scripts/gitcode_patch.py:260 | the lines of a diff are its whole text |
| UnifiedDiff.SplitShape | skills-src/l2/local/gitcode-pr-review-fetch/scripts/gitcode_patch.py:260 | a line ends at every line boundary of str.splitlines and nowhere else |
| UnifiedDiff.SplitConcat | skills-src/l2/local/gitcode-pr-review-fetch/scripts/gitcode_patch.py:260 | splitting undoes joining lines that are separate, so the lines determine the text and the text the lines |
| UnifiedDiff.LexPrint | skills-src/l2/local/gitcode-pr-review-fetch/scripts/gitcode_patch.py:297-396 | reading inverts writing a diff line: the column tells context, addition and removal apart, and the four numbers of a hunk header keep their places |
| UnifiedDiff.HeaderForms | skills-src/l2/local/gitcode-pr-review-fetch/scripts/gitcode_patch.py:9-11 | every written form of a hunk header, with either count present or absent, any digits, any text after the second marker and any line ending, reads as its numbers, and an absent count as 1 |
| UnifiedDiff.HeaderFormOnly | skills-src/l2/local/gitcode-pr-review-fetch/scripts/gitcode_patch.py:9-11 | no other line reads as a hunk header |
| UnifiedDiff.OneLineReplaced | skills-src/l2/local/gitcode-pr-review-fetch/scripts/gitcode_patch.py:259-414 | one line replaced under a header without counts is accepted at every line number but 0, with one line added and one removed |
| UnifiedDiff.CountHunkChanges | skills-src/l2/local/gitcode-pr-review-fetch/scripts/gitcode_patch.py:259-414 | accepts exactly the valid diffs (complete hunks with a change, matching ranges, equal gaps, empty ranges alone and at 0, nothing after a no-newline marker on its side) and returns their exact counts |
| UnifiedDiff.SoundStep | skills-src/l2/local/gitcode-pr-review-fetch/scripts/gitcode_patch.py:297-405 | line by line: what a further line must satisfy given the hunks so far |
| PatchApplication.FlippedCheck | skills-src/l2/local/gitcode-pr-review-fetch/scripts/gitcode_patch.py:259-414 | for every diff text, the text with plus and minus and the old and new ranges swapped has exactly the swapped lines; acceptance is the same and the counts are swapped |
| PatchApplication.MarkerInLastHunk | skills-src/l2/local/gitcode-pr-review-fetch/scripts/gitcode_patch.py:359-394 | in an accepted diff a no-newline marker stands only in the last hunk |
| PatchApplication.Offsets | skills-src/l2/local/gitcode-pr-review-fetch/scripts/gitcode_patch.py:327-351 | each hunk's new offset minus its old offset is the net additions of all earlier hunks |
| PatchApplication.ApplyLength | skills-src/l2/local/gitcode-pr-review-fetch/scripts/gitcode_patch.py:259-414 | applied to any file that matches its context and removed lines, a diff changes the length by added minus removed |
| PatchApplication.ReverseUndoes | skills-src/l2/local/gitcode-pr-review-fetch/scripts/gitcode_patch.py:259-414 | the reverse diff then matches the result and restores the file |
| PatchApplication.AcceptedPatch | skills-src/l2/local/gitcode-pr-review-fetch/scripts/gitcode_patch.py:259-414 | all of it for a text that the check accepts, with the check's own counts |
| DiffWriting.WrittenAccepted | skills-src/l2/local/gitcode-pr-review-fetch/scripts/gitcode_patch.py:259-414 | hunks without markers, written out as text, are read as themselves and accepted if and only if they are in place: counts as declared, ranges from 1 or empty at 0, equal gaps on both sides |
| DiffWriting.InPlaceMeaning | skills-src/l2/local/gitcode-pr-review-fetch/scripts/gitcode_patch.py:306-351 | in place, in the numbers of the headers: declared counts, a start of 0 exactly for empty ranges, hunks one after the other with as many unchanged lines between on both sides, the first at one line number on both sides or at the start of an empty side |
| DiffWriting.HunkPlaces | skills-src/l2/local/gitcode-pr-review-fetch/scripts/gitcode_patch.py:306-351 | applied to a file it matches, each hunk replaces exactly the lines that its header numbers, from 1, by exactly the lines it numbers in the result |
| GitPaths.QuoteGitPath | skills-src/l2/local/gitcode-pr-review-fetch/scripts/gitcode_patch.py:212-241 | the loop computes the quoted path |
| GitPaths.ReadQuote | skills-src/l2/local/gitcode-pr-review-fetch/scripts/gitcode_patch.py:212-241 | Git-style unquoting inverts the quoting of every path, wherever it ends in the text |
| GitPaths.QuotePrints | skills-src/l2/local/gitcode-pr-review-fetch/scripts/gitcode_patch.py:212-241 | a quoted path is printable ASCII, so it never breaks a line |
| GitPaths.SafePathIff | skills-src/l2/local/gitcode-pr-review-fetch/scripts/gitcode_patch.py:199-209 | a path is safe exactly if each of its parts between slashes is a name, and none holds a character that would end a line or a string |
| GitPatch.ValidateStatusMatrix | skills-src/l2/local/gitcode-pr-review-fetch/scripts/gitcode_patch.py:79-121 | accepts exactly the consistent combinations of status flags, paths and modes |
| GitPatch.ValidateFilePatch | skills-src/l2/local/gitcode-pr-review-fetch/scripts/gitcode_patch.py:24-76 | accepts exactly the small, textual, consistent files whose diff is valid and has the counts that the patch, or in their absence the file, declares |
| GitPatch.AcceptedForms | skills-src/l2/local/gitcode-pr-review-fetch/scripts/gitcode_patch.py:24-121 | a file is accepted if and only if it is a creation, a deletion, a renaming or a change in the one form that each has, with a valid diff of the matching sides and its declared counts |
| GitPatch.CountPrecedence | skills-src/l2/local/gitcode-pr-review-fetch/scripts/gitcode_patch.py:417-438 | a count in the patch decides whatever stands beside it, null waives the comparison, and any other type is refused |
| GitPatch.RenderFilePatch | skills-src/l2/local/gitcode-pr-review-fetch/scripts/gitcode_patch.py:124-189 | the text is a function of the status, the paths, the mode change and the diff up to a final line feed |
| GitPatch.RenderGitPatch | skills-src/l2/local/gitcode-pr-review-fetch/scripts/gitcode_patch.py:19-21 | fails exactly if some file is refused; otherwise the files' texts in order |
| PatchDecoding.DecodeText | skills-src/l2/local/gitcode-pr-review-fetch/scripts/gitcode_patch.py:124-189 | a decoder, which also checks the repeated names and the similarity line, recovers each file and the place where the next one begins |
| PatchDecoding.DecodeRendered | skills-src/l2/local/gitcode-pr-review-fetch/scripts/gitcode_patch.py:19-21 | the decoder recovers the whole list from the rendered patch |
| PatchDecoding.UniquelyDecodable | skills-src/l2/local/gitcode-pr-review-fetch/scripts/gitcode_patch.py:19-21 | two accepted lists render alike if and only if they say the same of every file |
| PatchDecoding.UnchangedModeLost | skills-src/l2/local/gitcode-pr-review-fetch/scripts/gitcode_patch.py:176-177 | a mode that does not change is not in the text |
| Topics.TopicAliases | site/src/lib/data.ts:79-96 | the fixpoint loop ends with the least alias set that holds slug and title and is closed under every group it touches |
| Topics.OrderIrrelevant | site/src/lib/data.ts:79-96 | the order and repetition of the synonym groups do not matter |
| Topics.EveryAliasTouched | site/src/lib/data.ts:85-94 | every alias beyond the seed is in a contained group with another alias |
| Trees.ReadTree | src/hwskill/publishing/store.py:136-160 | the recursive loop computes the manifest |
| Trees.ManifestFaithful | src/hwskill/publishing/store.py:136-160 | equal manifests mean equal directory trees |
| Trees.ScanTree | src/hwskill/verification/installer.py:84-124 | the recursive loop computes the two scan lists |
| Trees.ScanFaithful | src/hwskill/verification/installer.py:84-124 | equal scan lists mean equal directory trees |
| Trees.RootFile | src/hwskill/verification/installer.py:232-234 | a path without slashes is in the scan list exactly if the directory itself, not one below it, lists a file of that name |
| Publication.SharedDirectory.PublishTree | src/hwskill/publishing/store.py:649-687 | with any other processes creating entries and changing the source meanwhile: success exactly if the name holds the digested tree at the first look, or the source read as that tree twice and the name is free or holds it when the staging directory is renamed; in every case the directory is what the others alone would have left, or that with this tree where they had left nothing |
| Publication.SharedDirectory.FreezeTree | src/hwskill/publishing/store.py:586-628 | the same for the tree that was digested first, whatever the source turns into while it is copied |
| Publication.SharedDirectory.InstallTree | src/hwskill/verification/installer.py:215-317 | the same for the scanned tree, which must list SKILL.md; whoever takes the name first wins, and no staging directory remains |
| Publication.SharedDirectory.QuietSucceeds | src/hwskill/publishing/store.py:649-687 | with nobody else about and a stable source, a tree is published under every name that is free or holds it already |

## Left out

- File descriptors, fsync, symbolic links, hard links, inode and path identity checks,
  `renameat2`, `flock` and SQLite connections: each durable write, each transaction and
  each lock is one atomic step. The checks that a file did not change while it was read
  are part of that step.
- JSON Schema validation, ID patterns, URL and path safety predicates, and JSON text:
  documents are parsed values. Fields that nothing modelled reads (licenses, evidence) are
  not part of them; lists of purposes, topics and filter values are sets.
- Artifacts.CheckCatalog: without the schema and URL checks of a catalog entry.
- Artifacts.ValidateArtifact: without the schema and URL checks of entries and recommendations.
- FeedCheck.CheckSubject: without the schema checks of the documents.
- FeedCheck.ValidateSnapshot: without schema validation and the patterns of IDs.
- Feeds, snapshots and machine documents of schema version 1, and stores that mix versions.
- HTTP: retries, redirects, authorization, response and snapshot sizes. The limits on
  records, events and requests are modelled, with one attempt per request.
- The order in which Python visits a sorted set is arbitrary in the model; results do not
  depend on it. Digest texts of one length are compared as numbers.
- Publishing.Publisher.VerifyHistory: has no contract of its own; it shows by assertions
  that the loop over history never fails.
- Clock, random staging names and configuration checks are parameters: publication time,
  staging name, and feed identity, which the publisher's constructor requires to have no
  white space.
- A snapshot's documents are kept per release: the reader fetches single files, and the
  snapshot holds of each release the part that was fetched.
- UpdateStore.SQLiteUpdateStore.CommitAcknowledgement: a commit that succeeds but whose
  directory binding is lost afterwards is reported as uncertain by the code and as done here.
- UnifiedDiff.CountHunkChanges: only ASCII digits count in hunk headers, while the source's
  pattern also takes other Unicode digits.
- GitPaths.QuoteGitPath: a path is given as its UTF-8 bytes, so the refusal of text that has
  no UTF-8 encoding is not modelled.
- GitPatch.ValidateFilePatch: flags, paths and modes of a wrong JSON type, which the source
  refuses, cannot be written in the model; of a line count, presence, null and type are modelled.
- ConsumerRuns.SupersededNever: a sufficient condition; the exact one is
  Superseding.SupersededAckedIff.
- PatchApplication.ApplyLength: a file is a list of lines; that a line without a line feed is
  the file's last is not required of it.
- Topics.TopicAliases: lower-casing is a parameter, and the pages that use the aliases are not
  modelled.
- Publication.SharedDirectory.InstallTree: the bound material, the content digest and the
  creation of parent directories are not modelled; file modes are not part of a tree.
- The digest over sorted file contents in the installer, which is not injective, is not used:
  installation is stated by equality of scan lists.
- `validate_repository`, migration preview, source-reference ledger, pull-request reports,
  command lines, and site rendering: selections and glue that would only add easy members.
