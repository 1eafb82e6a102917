# Commonwake: a verified model of federation

Commonwake is a federated, hash-chained event log. Every node appends to a log
of its own, keeps verified copies of other origins' logs, checks their authors'
authority again while importing, relays what it retains, and keeps evidence of
forks. This project models that core in Dafny and proves what the pieces promise
together. `dafny verify dfyconfig.toml` checks all of it.

## How it is laid out

| file | what it holds |
|---|---|
| `Common` | option, result and error types |
| `Chain` | hash chain, checkpoints, the stateless bundle verifier |
| `Replica` | a node's tables and the import of a bundle, case by case |
| `Transaction` | the import as it runs, in one open transaction, and the class of a node's tables |
| `ImportSafety` | what every import keeps, what a failed one leaves, which bundles are forks |
| `Relay` | serving bundles from one's own log and from retained ones |
| `Network` | runs of many nodes under arbitrary deliveries |
| `Witnessing`, `Orientation` | checkpoint witnesses, import windows, and the reader who pages through them |
| `Mirror`, `Export` | the pull loop, the export loop and its offline verifier |
| `Authority`, `AuthorityReplay`, `AuthorityTables` | lineages, keys, delegations and acknowledgements at the origin and at an importer |
| `Audit` | the same decisions read off the log alone, by position, with every limit written out |
| `Sources`, `Stories`, `Votes` | projections that origin and importer, or two importers, must agree on |
| `Publication` | receipts, replication health and the publication loop |
| `RateLimit`, `TopicPaging` | the edge's rate windows and the batched topic scan |
| `WholeLog` | chain and projections joined: what it takes to follow an honest origin to its head |

Tables are maps, sets and sequences; a transaction is one step, except for the
import, whose three conflict paths commit what the transaction holds and then
fail. Code that updates
tables or loops over rows is a class or a method with a loop, proved equal to a
specification function; the theorems are about the specification. Where origin
and importer share a specification function, a further theorem describes it
without naming it, by positions in the log and with its constants in figures.

## Modelling decisions

- Cryptography is symbolic. A digest is the term that was hashed, so hashing is
  injective; a signature is the key and what it signed. An event's sequence
  number is in neither, as in the source: only the chain and a signed checkpoint
  pin it.
- Unforgeability is stated about signature terms: a checkpoint signature by an
  honest node's key is one over a head of its log. That a verified bundle is
  genuine is derived from verification (`Network.VerifiedIsGenuine`).
- A hash text carries its spelling. `hex::decode` accepts upper case but hashes
  are compared as texts, and that difference decides one branch of the import.
- Whatever the projection layer refuses while importing is an arbitrary set of
  sequence numbers in the chain modules. Every theorem there holds for all such
  sets; `WholeLog` derives the set from the four importers.
- Times are integer milliseconds. Authority requests read the clock twice, once
  to authorise and once to stamp, and both readings are modelled.
- Each service call is atomic. Local sequence numbers have no gaps.
- Relay answers, clock readings and events appended while a page is in flight
  are parameters of the loops, and arbitrary.

## Promises that hold only under a condition

Each is stated as an exact condition, together with a concrete failing case.

- **False accusation by spelling.** A verified bundle that starts at the stored
  head and spells its first `previous_hash` in upper case is recorded as a
  `chain_fork` against an honest origin. Nobody is accused exactly if no such
  bundle is delivered (`Network.NoFalseAccusation`,
  `Network.RespelledBundleAccuses`).
- **A delegation that runs out between two clock readings.** The origin accepts
  the object, and no importer accepts its log. A log replays exactly if no
  accepted object straddles its delegation's expiry
  (`AuthorityReplay.ReplayBisimulates`, `AuthorityReplay.StraddlingLogIsRefused`).
- **Merged stories and long texts.** The origin accepts links to and assessments
  of merged stories, and its collector cuts a long title or summary to one
  character more than importers take. Such a link can leave two stories merged
  into each other, and importers refuse all three. The story records of a log
  import exactly if every accepted link and assessment named a live story and no
  accepted feed item was over-long (`Stories.StoriesReplay`,
  `Stories.OriginCanCycle`, `Stories.MergedAssessmentBlocks`,
  `Stories.LongItemBlocks`).
- **A proposer's own vote.** An importer accepts it before the topic arrives and
  refuses the log afterwards, so arrival order decides
  (`Votes.AcceptedIff`, `Votes.ArrivalOrderDecides`).
- **A trailing empty export page.** Its hash is compared with nothing
  (`Export.EmptyLastPage`, `Export.EmptyPageUnbound`).
- **Rejected calls can restart a window.** A rejected call spends no budget, but
  leaves the limiter unchanged exactly if every window was still open
  (`RateLimit.RejectionSpendsNothing`).

## Model

| member | source | states |
|---|---|---|
| Chain.HashInjective | src/crypto.rs:121-127 | equal chain hashes mean equal logs, however long |
| Chain.ExtendPinsLog | src/federation.rs:88-131 | a head hash pins the records behind it and the digest they started from, though no event commits to its position |
| Chain.VerifyLog | src/db.rs:3140-3189 | the one-pass scan accepts exactly the rows an origin with this key would have written, unhashed columns included, and reports their number and head hash |
| Chain.HeadPinsTable | src/db.rs:3493-3528 | two tables that verify with the same head are equal in every column, so none can be altered unnoticed |
| Chain.HeadPinsLog | src/db.rs:3140-3189 | two stored logs of one origin with the same head hash at a cursor agree on every event up to it |
| Chain.VerifyBundle | src/federation.rs:35-150 | one pass carrying only the previous hash accepts exactly the bundles that are contiguous, chained, signed and end in their signed checkpoint; `Relay.VerifiesIffStretch` and `Chain.SignaturePinsCheckpoint` say what those are |
| Chain.SignaturePinsCheckpoint | src/federation.rs:154-162 | two checkpoints that verify with the same signature are equal in every field |
| Chain.GenuineBundleIsCut | src/federation.rs:59-150 | a verified bundle under a genuine checkpoint is a slice of the origin's log, whoever assembled it |
| Chain.CutEvents | src/federation.rs:76-131 | its events are the log's events, field by field, except possibly the spelling of the first previous hash |
| Relay.VerifiesIffStretch | src/federation.rs:35-150 | under a checkpoint of a head of the log, a bundle verifies exactly if protocol, origin, key and checkpoint signature are the origin's and its events are a stretch of at most 500 of the log's events ending there, the spelling of the first previous hash alone left free, and not at the genesis |
| Transaction.Node.AppendEvent | src/db.rs:3408-3463 | appending keeps the log chained and signed, and refuses exactly objects over 65536 bytes and those with the canonical text, or the delegation and nonce, of an earlier event |
| Transaction.Node.FeedEvents | src/db.rs:435-530 | the event loop projects and inserts in the open transaction, in place, exactly as the event-by-event specification says, up to where it stops |
| Transaction.FeedIsScan | src/db.rs:435-530 | on a verified bundle that loop finds the first stored difference, the fork at the head or the refused event, else exactly the new rows; it never meets a gap or a missing row, and has written nothing when it meets a conflict |
| Transaction.Node.ImportBundle | src/db.rs:371-699 | the import does what the case-by-case specification says; a failed one leaves rows and projections as they were; the gap, missing-row and checkpoint-beyond-log errors are unreachable |
| Transaction.FinishIsCommit | src/db.rs:573-699 | the writes after the checkpoint test store rows, head, checkpoint, witness and window together |
| ImportSafety.ImportKeepsInv | src/db.rs:371-699 | every import, failed or not, keeps each retained log valid, a checkpoint at its head and checkpoint gaps of at most 500 |
| ImportSafety.CheckpointsKept | src/db.rs:573-602 | an import that grows the rows by at most one bundle keeps a checkpoint at the head and within 500 of every cursor |
| Transaction.CommitOnConflictIsHarmless | src/db.rs:435-571 | a transaction that commits on a conflict makes permanent all it holds, and that is nothing but one piece of evidence, against an origin retained before and with two different hashes; event rows, projections, peer rows, heads and checkpoints are as they were |
| ImportSafety.FirstContactNeverConflicts | src/db.rs:410-571 | a first bundle cannot conflict, so no evidence commit leaves an empty peer row behind |
| ImportSafety.AdmissionIff | src/db.rs:371-434 | a bundle reaches the event loop exactly if it verifies, is another node's and starts at or below the retained head; a first contact starts at zero, and the key cannot change |
| ImportSafety.ForkDetection | src/db.rs:436-571 | for every verified bundle of another node that starts at or below the retained head: equivocation is recorded exactly if the bundle's chain and the stored log differ anywhere below the shorter head, however far below the bundle's start, or the head is misspelled |
| ImportSafety.EvidenceTells | src/db.rs:436-571 | recorded evidence names the origin, the first sequence that differs and the kind of conflict, with the stored hash and the one that contradicts it |
| ImportSafety.ReportTells | src/db.rs:689-699 | the report of an import states the head before and after, the number of new events, the head's hash, and a witness exactly if some new event is not itself one |
| Relay.OriginServes | src/federation.rs:230-255 | a node serves, at every cursor up to its head, a verifying slice of its log under a genuine checkpoint, of exactly as many events as were asked for, between 1 and 500, or as there are |
| Relay.RelayEndNear | src/db.rs:2934-2959 | the chosen end has a retained checkpoint, lies past the cursor and within 500 events |
| Relay.RelayServes | src/db.rs:2907-3001 | for every retained origin and every cursor up to its head the relayed bundle exists, verifies, advances unless at the head, and holds at most 500 events; it ends at the last retained checkpoint within the limit, or else the first beyond it, under the newest row for that cursor; every other request fails with its own error |
| Relay.RelayEndIsBest | src/db.rs:2934-2959 | the chosen end is a retained checkpoint past the cursor: the last within the clamped limit if one lies there, otherwise the first beyond it |
| Network.VerifiedIsGenuine | src/federation.rs:154-162 | if nobody forges signatures, a bundle that verifies under an honest node's name carries a checkpoint of a head of its log |
| Network.HonestImport | src/db.rs:428-571 | importing a verified genuine bundle that starts at or below the retained head keeps the copy a prefix of the origin's log, and accuses the origin exactly if the bundle misspells the stored head |
| Network.HonestBundleImported | src/db.rs:428-699 | every well-spelled bundle of an honest log from any cursor up to the retained head, none of whose new events is refused, is imported and leaves the log up to the larger of the head and the bundle's end |
| Network.NoFalseAccusation | src/db.rs:428-571 | at every moment of every run of appends and deliveries every retained log is a prefix of its origin's, and no honest node stands accused exactly if no delivery so far framed one |
| Network.RunExtends | src/db.rs:371-434 | a run can go on with any enabled append or delivery, so the runs quantified over are not cut short |
| Network.WellSpelledRunsFrameNobody | src/federation.rs:94-117 | in a run whose bundles all spell their first previous hash in lower case nobody is ever accused |
| Network.RespelledBundleAccuses | src/db.rs:469-500 | wherever a proper non-empty part of an honest log is retained, some verified unforged bundle gets its origin accused |
| Witnessing.ImportEffect | src/db.rs:604-688 | an import of witness events alone adds no witness and no window; any other adds exactly one of each, never reused and never dropped as a duplicate |
| Witnessing.WindowsPartitionImports | src/db.rs:604-688 | at every moment of every run the windows of an origin are disjoint and inside what is retained, every imported event of another kind lies in exactly one, and witnesses number at most the events witnessed |
| Witnessing.WitnessTrafficBounded | src/db.rs:604-660 | among mutually importing nodes no node ever holds more witness events than there were other appends in the run so far |
| Orientation.OrientAdvances | src/service.rs:161-204 | an orientation page is made from exactly the next hundred events of the log or what is left, the next cursor is where they end, and more is announced exactly if events remain; from a cursor at or beyond the head it is empty and stays; a negative one is refused |
| Orientation.PagesAreTheLog | src/service.rs:161-204 | the events of a reader's consecutive pages, appended, are the log between the first and the last cursor, each once and in order, whatever is imported between the pages |
| Orientation.ReaderReadsTheLog | src/service.rs:161-204 | the same in every run of the network, for every reader who starts at zero |
| Orientation.SurfacedIsStable | src/db.rs:7554-7580 | what a page's range surfaces does not change as the node imports more |
| Orientation.SurfacesExactlyOnce | src/db.rs:7554-7580 | across any sequence of pages interleaved with imports, an event whose window lies in their span is surfaced by exactly one of them |
| Orientation.ReaderSeesOnce | src/service.rs:161-204 | in every run of the network, for every reader who starts at zero and reaches the head, each imported event of another kind than witness is surfaced by exactly one page |
| Orientation.ChangeIsReported | src/db.rs:7554-7580 | exactly one page surfaces an event, and a story it touched is among that page's changed stories exactly if it is unmerged when the page is read, for every projection that reads the origin's log |
| Orientation.ReportIsExact | src/db.rs:7554-7580 | a page's changed stories are exactly those live when it was read that an event inside a window witnessed in the page's own range touched, whatever is imported later |
| Orientation.EveryChangeIsReported | src/service.rs:161-204 | the same for every run of the network and every reader of a node in it |
| Mirror.SourceServes | src/main.rs:1366-1384 | an origin or relay answers exactly the cursors up to its head, with the next slice of what it holds |
| Mirror.PullPage | src/main.rs:1384-1410 | one round either leaves the copy equal to the source's log or strictly advances, and cannot fail for a reader whose copy is a prefix |
| Mirror.Synchronize | src/main.rs:1356-1423 | the pull loop ends; caught up means the retained log and head equal the source's, for every batch size and starting point; a page limit is kept to and alone ends it early; an origin's pages are full while it has events; without a limit every reader with a prefix catches up; each page is witnessed anew |
| Export.VerifyExport | src/main.rs:868-947 | the line-by-line verifier accepts exactly the page sequences that continue one another and reports their range, count and final hash |
| Export.PagesRefineWholeLog | src/main.rs:868-947 | adjoining non-empty pages are accepted exactly if all their events form one contiguous signed chain |
| Export.AcceptedReport | src/main.rs:925-947 | the report states the true origin, range, page and event counts and head of that chain, and that it is complete exactly if it starts with event 1 |
| Export.EmptyLastPage | src/main.rs:868-947 | in every accepted export that ends in an empty page the events are those of the pages before, and the reported final hash is their head exactly if the empty page repeats the hash before it; a lone empty page reports its own |
| Export.EmptyPageUnbound | src/main.rs:907-914 | after any accepted pages an empty page with any hash at all is accepted |
| Export.EverySplitIsAccepted | src/main.rs:868-947 | every way to cut a valid log into pages is accepted |
| Export.ExportLog | src/main.rs:806-830 | the export loop never stalls, and its pages, each stamped when it is built and all but the last of 500 events, verify and flatten to the log from the requested cursor to the head |
| AuthorityTables.OriginTables.RegisterLineage | src/db.rs:701-763 | a registration succeeds exactly if the identifier and key are new to every table, and writes lineage and key version 0 |
| AuthorityTables.OriginTables.RegisterDelegation | src/db.rs:770-841 | a delegation succeeds exactly if its terms are valid and signed by the current key and it is new |
| AuthorityTables.OriginTables.RevokeDelegation | src/db.rs:876-943 | only the owner's current key revokes, once |
| AuthorityTables.OriginTables.RotateLineageKey | src/db.rs:945-1048 | rotation needs both proofs and a never-used key, closes the open key row, and revokes delegations if asked; which ones is `Audit.RotationRevokes` |
| AuthorityTables.OriginTables.AuthorizeDelegation | src/service.rs:260-291 | succeeds exactly for a known, unrevoked delegation with the scope, inside its window, skew included |
| AuthorityTables.OriginTables.AcceptContribution | src/service.rs:115-134 | a contribution is appended exactly if its delegation authorises it, the session key signed it and the projection does not refuse it |
| AuthorityTables.OriginTables.Acknowledge | src/db.rs:1080-1156 | a cursor between the previous one and the head is stored, and at the head it also consumes its own event |
| AuthorityTables.OriginTables.Handle | src/service.rs:26-159 | every request of every kind, accepted or not, keeps the origin's key, delegation and acknowledgement invariants |
| AuthorityTables.RemoteTables.ImportEvent | src/db.rs:3663-4046 | an event of any origin, honest or not, is let in only if an origin with the same tables would itself accept it, and keeps key histories tiling, keys unused twice and delegations owned; a refused one changes nothing |
| AuthorityTables.RemoteTables.ImportLog | src/db.rs:436-530 | a page imported on top of whatever was imported before replays completely or not at all, and keeps the same invariants |
| AuthorityTables.RunAndImport | src/db.rs:701-1156 | an origin driven through any requests and an importer that takes its log in two pages cut anywhere end in agreement exactly if nothing straddled |
| AuthorityReplay.SubmitKeepsInv | src/db.rs:701-1048 | every request keeps key versions numbered, validity intervals tiling with the last open and current, keys never reused, and delegations within their log |
| AuthorityReplay.StepBisimulates | src/db.rs:3663-4126 | what the origin accepts the importer accepts, unless it straddles its delegation's expiry, and both tables then agree again |
| AuthorityReplay.ReplayBisimulates | src/db.rs:3663-4164 | over every run, the log replays exactly if nothing straddles, and the importer ends with the origin's current keys, versions, key intervals, delegations and revocations |
| AuthorityReplay.AdmitsMeansAccepts | src/db.rs:3663-4126 | the importer admits nothing that an origin with its tables would refuse |
| AuthorityReplay.AnyImportIsSound | src/db.rs:3663-4126 | whoever wrote a log that imports, its keys are numbered, tile and are never reused, the last is current, and every delegation belongs to an earlier lineage |
| AuthorityReplay.OneClockReplays | src/service.rs:277-284 | with one clock reading per request every log replays |
| AuthorityReplay.StraddlingLogIsRefused | src/db.rs:4109-4118 | a contribution authorised in the last good millisecond and stamped in the next makes its log unimportable |
| AuthorityReplay.AcknowledgementSafety | src/db.rs:1080-1156 | over every run a cursor never moves back or past the head, covers only events that were named or are its own acknowledgements, and equals what an importer recomputes from the last acknowledgement |
| Audit.RotationRevokes | src/db.rs:1039-1045 | at the origin and at an importer, a rotation that revokes marks every standing delegation of its lineage with its own sequence number and leaves earlier revocations; no other row changes, and without the flag none does |
| Audit.ServeFaithful | src/db.rs:701-1156 | after every run the tables say what the log says: who signs for a lineage, which keys were ever used, which delegations were granted on which terms and at which event, which of them ended and by which event first |
| Audit.OriginDecidesByLog | src/service.rs:26-159 | after every run a request succeeds exactly if the law permits its object after the log at that clock reading, by position: a key never introduced before, the current key's signature, a delegation still standing, a cursor past all earlier ones, five minutes of skew, at most thirty days, no object and no nonce under a delegation twice |
| Audit.ImportsIffLawful | src/db.rs:3663-4164 | a log, whoever wrote it, imports exactly if every event is lawful after the ones before it, in the same sense and with its labels right, and the importer's tables then say what the log says |
| Audit.RevokedWritesNoMore | src/service.rs:260-291 | in every run, once a delegation was revoked, by itself or by a rotation of its lineage's key, no contribution or acknowledgement under it succeeds |
| Audit.RevokedImportsNoMore | src/db.rs:4080-4126 | no log with such an event after the revocation imports |
| Audit.NothingTwice | src/db.rs:3408-3463 | no two events of an origin's log, or of an imported one, are the same object, share a nonce under a delegation, or introduce the same key |
| Sources.CountsAgree | src/db.rs:4381-4398 | stored traceable approvals plus the current review equals the count after the upsert, re-reviews included, for any table |
| Sources.GateAgrees | src/db.rs:5875-5923 | over every run of proposals, reviews, observations and fetch results every event of the origin passes the importer's source gate, and a source is proposed on both sides or on neither |
| Sources.AdmissionIsHistory | src/db.rs:4338-4407 | an importer has a source past proposed exactly if at some moment two lineages, neither the proposer, had a traceable approval as their last word |
| Sources.ImportableIffLawful | src/db.rs:4166-4407 | a log passes the source gate exactly if every proposal is its source's first, every review has evidence and another author than the proposal, and every observation comes after two lineages' last words were traceable approvals |
| Sources.OriginDecidesByLog | src/db.rs:5134-5172 | the origin accepts exactly what is lawful after its log, and of reviews only traceable ones |
| Sources.SourceRegistry.ReviewSource | src/db.rs:5875-5923 | a local review is upserted, counted and may open the source |
| Sources.SourceRegistry.MarkSourceFetch | src/db.rs:1318-1343 | a fetch result leaves a source proposed exactly if it was, touches no other source, and keeps statuses earned; the status itself is `Sources.FetchHistory` |
| Sources.StatusesAreEarned | src/db.rs:1318-1343 | over every run an active or degraded source had ten successful fetches, and a degraded one three failures in a row |
| Sources.FetchHistory | src/db.rs:1318-1343 | over every run a row counts the successes since the proposal and the failures since the last success; a source is past probation exactly from a tenth or later success after its admission on, and from then on degraded exactly while three fetches or more have failed in a row |
| Sources.FederatedSources.ImportReview | src/db.rs:4338-4407 | a remote review is checked, upserted and counted before its event is stored, and keeps the tables what the log's last words say |
| Stories.ProjectionIsForest | src/db.rs:4224-4523 | after every accepted run of observations, links, assessments and verifications each observation is in one live story, a story is merged exactly if it is empty, and merge chains end at a live story and never cycle |
| Stories.ImportsByLog | src/db.rs:4166-4544 | an importer takes the next story event exactly if it is a genuine, new observation within the text limits under its article's story, a link of earlier observations to a story that holds one, an assessment of such a story, or a verification of an earlier observation |
| Stories.LinkFiles | src/db.rs:4477-4515 | a link files exactly the named observations under its target and moves no other |
| Stories.LinkMerges | src/db.rs:4477-4515 | a link merges into its target exactly the stories it empties and changes no other story's target |
| Stories.ClusteringRule | src/db.rs:4226-4240 | an observation opens the story named by it if no stored one has its source and URL, and otherwise joins the story of the stored one with both at the least index |
| Stories.StoriesAreArticles | src/db.rs:4226-4289 | in every accepted run without links two observations share a story exactly if they have the same source and URL |
| Stories.StoriesReplay | src/db.rs:4166-4544 | the story records of the origin's log import, and rebuild the origin's own story tables, exactly if every accepted link and assessment named a live story and no accepted feed item had a text over its limit |
| Stories.LinkBreaksForestIff | src/db.rs:5183-5207 | from a forest, a link the origin accepts leaves a forest exactly if its target is live |
| Stories.OriginCanCycle | src/db.rs:5965-5994 | two accepted links leave the origin's stories merged into each other and its log unimportable |
| Stories.MergedAssessmentBlocks | src/db.rs:5208-5216 | an accepted assessment of a merged story makes the origin's log unimportable |
| Stories.LongItemBlocks | src/ingest.rs:373-379 | a first feed item imports exactly if its title has at most 500 and its summary at most 2000 characters; a longer one is cut to one character more than importers take |
| Stories.StoryTables.ProjectObservation | src/db.rs:4166-4289 | an observation is filed under the story the clustering rule names (`Stories.ClusteringRule`), or refused, and the tables stay a forest |
| Stories.StoryTables.LinkStory | src/db.rs:4455-4523 | the link loop moves observations one by one, merging emptied stories (`Stories.LinkMerges`), or rolls back, and the tables stay a forest |
| Votes.TableIsLastVotes | src/db.rs:5010-5035 | whatever the interleaving, the table holds each voter's last vote per origin and nothing else |
| Votes.VotesConverge | src/db.rs:5010-5035 | accepted interleavings of the same log prefixes end in the same tables |
| Votes.AcceptedIff | src/db.rs:4794-4817 | an interleaving is accepted exactly if every log supersedes properly and no proposer's own vote arrives after its topic |
| Votes.ChainedByIndex | src/db.rs:4794-4817 | a log supersedes properly exactly if each first vote of a lineage on a topic supersedes nothing and each later one exactly the identifier of the vote before it |
| Votes.ArrivalOrderDecides | src/db.rs:4796-4807 | the same two logs import in one order and not in the other |
| Votes.HonestVotesConverge | src/db.rs:5292-5321 | logs whose votes passed their own origin's checks import in every order, and all orders end in the same tables |
| Votes.EachVoterOnce | src/db.rs:3337-3361 | every voter but the proposer counts in exactly one class, the proposer in none |
| Votes.TopicVoteTally | src/db.rs:3325-3362 | the tally's numbers are the sizes of those classes and its conflicted list is the last class, sorted |
| Votes.TallyMeans | src/db.rs:3325-3362 | the numbers count the lineages other than the proposer that say one thing at every origin holding a vote of theirs, and the list those that say two |
| Votes.TopicIsApproved | src/db.rs:3364-3375 | approved exactly with two unconflicted approvals that outnumber the unconflicted rejections |
| Publication.RunIsSound | src/db.rs:2627-2721 | in every run each target's acknowledged head lies on the local chain, never regresses, and its relay identity never changes once set |
| Publication.TargetsAreHistory | src/db.rs:2627-2749 | in every run a target exists exactly if it was configured, and holds the last receipt recorded for it, when that was, and the failures and retry time since |
| Publication.RecordedIff | src/db.rs:2627-2721 | in every run a receipt is recorded exactly if another node signed it for a head of this node's own log and it neither falls behind nor changes the relay of the last one recorded |
| Publication.CompleteIffReplicated | src/db.rs:7164-7228 | right after a refresh the work item is complete exactly if the health at that moment is "replicated" |
| Publication.HealthMeans | src/db.rs:2751-2870 | health counts the relays whose signed receipts name the current head, and those that did so within 24 hours; none of the latter is unreplicated, fewer than desired degraded, enough replicated, and no target at all unconfigured |
| Publication.BackoffIsBounded | src/publication.rs:43-44 | the delay starts at 30 seconds, doubles, never shrinks as failures add up, and is an hour from the seventh on |
| Publication.Publisher.RecordPublicationSuccess | src/db.rs:2627-2721 | a receipt is stored exactly if it is valid, for this origin, on the local chain, from the known relay and no step back |
| Publication.Publisher.ReplicationHealth | src/db.rs:2751-2870 | health counts distinct relays at the head, and its mismatch error cannot occur in a reachable state |
| Publication.Publisher.PublishPages | src/publication.rs:56-130 | the page loop ends whatever the relay answers and whatever is appended meanwhile, changes state only by the steps of the state machine, sends full batches but for the last, and without a page limit succeeds only having reached its snapshot |
| Publication.Publisher.PublishOrigin | src/publication.rs:26-54 | a success accounts for every published event, and a failure is recorded with the backoff of the failures before it |
| RateLimit.RateWindows.Check | src/edge.rs:383-422 | the in-place limiter gives the specified verdict and next state |
| RateLimit.AtMostTwice | src/edge.rs:383-422 | at most twice the limit is accepted in any half-open interval of a second for requests, a minute for writes, an hour for volunteer writes |
| RateLimit.AtMost | src/edge.rs:383-422 | more generally, at most one budget more than the interval has window lengths |
| RateLimit.RequestsCapAll | src/edge.rs:404-406 | the request limit caps the longer windows: at most 61 of its budgets in a minute and 3601 in an hour |
| RateLimit.RequestsReachTwice | src/edge.rs:392-395 | for requests an ordered run reaches twice the limit, whatever the limit |
| RateLimit.TwiceIsReached | src/edge.rs:396-403 | for writes and volunteer writes some ordered run reaches twice the limit whenever the request limit lets one of their budgets through in half the window's length |
| RateLimit.RejectionSpendsNothing | src/edge.rs:404-412 | a rejected call spends nothing in any window, and leaves no trace exactly if every window was still open |
| RateLimit.RefusedIffExhausted | src/edge.rs:404-412 | a call is refused exactly if a window it draws on is used up, and the verdict names the shortest such window |
| TopicPaging.ForumTopics | src/db.rs:2276-2344 | the batched scan returns the first matching topics past the cursor and whether there are more, across batch boundaries and filtered stretches |
| TopicPaging.PageIsExact | src/db.rs:2276-2344 | a page holds at most the limit of visible topics past the cursor, newest first and by identifier; what it leaves out comes after all of them and only if it is full, and more is announced exactly then |
| TopicPaging.PagingIsExact | src/db.rs:2276-2344 | for every positive limit, following the cursors yields exactly the visible topics, each once, newest first; a proposal is visible if asked for, an approved topic if asked for or not quiet for longer than its archive days |
| TopicPaging.CollectAll | src/db.rs:2327-2343 | a client that follows the cursors ends, with exactly the matching topics |
| TopicPaging.ZeroLimitSticks | src/db.rs:2327-2343 | with limit 0 the page is empty and has no cursor, yet announces more exactly if something matches |
| WholeLog.HonestTables | src/db.rs:3663-4046 | an honest origin's log passes the authority, source, story and vote importers together exactly if no object straddled its delegation's expiry, no link or assessment named a merged story and no text was over-long, and then rebuilds the origin's own tables |
| WholeLog.Follow | src/main.rs:1356-1423 | a reader of an honest origin, from the origin or any relay, catches up exactly under that condition, and then retains the origin's log and holds its tables |

## Left out

- HTTP routes, TLS, command line, static documents, SQLite and migrations: plumbing.
- Ed25519, SHA-256, canonical JSON and base64url: symbolic terms; an object has one signature per key, and a hash text is taken to contain a letter, so that it has a second spelling.
- The `checkpoint_json` column of a peer row and the JSON kept as evidence: copies of modelled values.
- Feed fetching and parsing, and the text limits on authors and categories, which no importer checks.
- Payload length and character checks, coverage reports, title similarity: single-branch checks or floating point.
- Volunteer leases and anonymous submissions, forge artifacts and release records: one-shot checks with little state.
- Corrections, translations, perspective gaps, posts, encryption keys and direct messages: rows without a property across operations.
- Transaction.Node.FinishImport: the witness it appends is taken to have a new identifier; it encodes the checkpoint it witnesses, and an existing witness of that checkpoint is reused instead.
- AuthorityTables.OriginTables.AcceptContribution: what the projection and the artifact store refuse is a parameter; the source, story and vote modules model parts of it.
- Mirror.Synchronize: pulls from a source that does not change meanwhile, and leaves out the witness list in its report.
- Publication.Publisher.PublishPages: one publication runs at a time per endpoint; health is read from the stored rows without re-verifying receipts, which always match in reachable states; a node identity is always present.
- Publication.CompleteIffReplicated: whole milliseconds; the source compares one side truncated to milliseconds and the other untruncated.
- Sources.GateAgrees: the completion of the review work item and its rejection count are not modelled; what else an importer asks of an observation is in the story module.
- Votes.VotesConverge: the origin and sequence columns of a topic proposed at two origins, which depend on arrival order, are not part of the tables.
- RateLimit.TwiceIsReached: does not settle limits between 30 and 30.5 (1800 and 1800.5) times the request limit; above that the bound is out of reach by RateLimit.RequestsCapAll.
- WholeLog.Follow: the decoding of records is an arbitrary function, and the vote tables are those of a reader of this one origin.
- TopicPaging.ForumTopics: the table is given in query order, and the cursor as a pair rather than its text.
- The per-request lock order: a concurrent run in which another request slips between authorising and appending is not modelled.
