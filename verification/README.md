# Verified model of Message Box Store

A Dafny model of the parts of Message Box Store whose correctness is an argument rather than a
reading: the change feed and the replica that follows it, the two delivery protocols, the
hand-written codecs and scanners, and the small schedulers. `dafny verify dfyconfig.toml` checks
everything.

## How it is arranged

**The feed and the replica.** `History` is one owner's log, what a faithful copy of it is, and
what applying events does to a copy. `Feeds`, `FeedSafety` and `SnapshotFeed` are the server:
fixed watermarks, retention checks, candidate selection, pages and continuations, and what pages
are worth to a reader; `FeedAnswers` says when a read is answered and when it is refused, and with
what. `Paging`, `Json`, `Cursors`, `Browse`, `PageBytes` and `Envelope` are the
byte accounting. `Replica`, `World` and `Sync` are the client: its checks, the replica contract,
and `syncHistory` as code, with every await a point where writers, the purger, epoch rotation,
other clients and the cancellation signal may do any number of steps (`World.Interfere`). A ghost
journal records what this client's own calls came to, and `syncHistory` answers for it.
`Exactness` says when a copy, after one page or after everything it has been through since its
snapshot, is not merely faithful but equal to the folded log.

**Delivery.** `OutboundProtocol` is sending as a transition system over any number of invocations,
with crashes, lost messages and other parties; `OutboundOutcomes` is what its callers and its
records are told; `Outbound` is the code, each step an action of that system. `InboundLedger` and
`Inbound` are the archive-before-acknowledge pass and the event trace it is judged by.

**Codecs.** `Base64`; `Fips180`, `FipsConstants` and `FipsWords` (the standard) and `Sha256` (the code);
`Utf8`, `RecordKey` and `RecordKeyReads`; `JsonGrammar` (RFC 8259), `JsonSkip`, `JsonSkipCorrect` and
`JsonDuplicates`; `TextParts`, `IpLiteral`, `IpCorrect` and `IpKeys`; `Decimals`, `Positions` and
`Epochs`.

**Schedulers.** `RateLimit`, `Cleanup`, `OwnerLocks`, `Restore`.

## Where the code and its descriptions differ

- A synchronization restarts its page budget after a resnapshot error (`src/replica.ts:264-277`),
  so it makes up to twice `maxPages` requests, not `maxPages` as `src/replica.ts:34` says; only a
  run that replaces existing coverage does, and the pages it reports stay within `maxPages`
  (`Sync.SyncHistory`).
- Between pages, and even at the end of a pass, rows need not be the fold to the checkpoint: a
  change whose record has been deleted since is left out. They are exactly when every record that a
  page applied since the snapshot left out is gone at the checkpoint (`Exactness.PassExactIff`,
  `Sync.HeldIsExactIff`); `Exactness.HiddenRecordServed` and `Exactness.MidPassInexact` are
  instances. A finished copy that is not exact cannot be completed by an incremental pass
  (`Exactness.InexactCopyExpires` for one read, `Sync.ApplyChanges` for runs), only by a snapshot.
- A deletion beyond a pass's watermark is sent early under its own sequence, which the client then
  rejects as inconsistent (`Replica.EarlyDeletionServed`). The pass is stuck while the deletion is
  retained (`Replica.EarlyDeletionStallsPass`, `Replica.RejectionIsEarlyDeletion`), but no longer than
  its cursor lives: the same continuation is sent again until it has expired, and is then answered by
  the error that makes the client take a snapshot (`Sync.SyncHistory`).
  A pass that begins from a checkpoint is not rejected on its first page
  (`Replica.CheckpointNeverStalls`).
- An acknowledgement names ids and a host. Where two messages of a host share an id and only one
  has been archived, acknowledging that one removes both: exactly then is an unarchived message lost
  (`InboundLedger.NothingLostIff`, `Inbound.Pass.Acknowledge`, `InboundLedger.SharedIdLost`).
- A record too large for any page is refused even when it is only the first one past a full page
  (`Paging.FitCountRejects`).
- A record deleted again gets another deletion event; the log model allows it.
- After delete-all a message can be sent a second time, and the archive's idempotency row answers
  for the new record (`OutboundProtocol.WipeForgets`).
- The state change after a send names no epoch, so an answer that arrives after delete-all is written
  to whatever record has been reserved under the key since: it is then accepted without having been
  sent (`OutboundOutcomes.LateAnswer`). A record accepted in a generation has a confirmed send of that
  generation or an earlier one, or another party's patch (`OutboundOutcomes.AcceptedHasSource`).
- `sha256Bytes` cannot pad inputs of 2^31 - 72 bytes or more: the signed shift overflows
  (`Sha256.PaddedLengthIff`).
- The duplicate check stops silently at a member value nested more than 100 levels
  (`JsonDuplicates.DuplicateIff`).

## Conventions

Sequence numbers, watermarks and positions are numbers (`Decimals` is why that is faithful); record
keys in the feed are numbers of sixty-four hexadecimal digits; a filter stands for its digest; a
cursor is its authenticated payload, and the authenticator is an uninterpreted byte string. One call
of an adapter is one atomic step, as the per-owner lock makes it. Clocks, wallets, the network, the
parser of dates and the other end of every request are nondeterministic or parameters.

## Model

| member | source | states |
|---|---|---|
| Feeds.AssertNoInternalRetentionGap | src/feeds.mjs:178-206 | The loop accepts exactly the row lists that have no gap from the position on and, when cut short of the limit, reach the watermark |
| Feeds.GapFreeIffRetained | src/feeds.mjs:178-206 | Seeing only the rows one page scans, the check passes if and only if none of the sequences that page answers for has been purged |
| FeedSafety.ExpiresIffGap | src/feeds.mjs:144-206 | A checked read with something left to read answers ERR_CURSOR_EXPIRED if and only if a sequence of its page has been purged |
| Feeds.SelectAll | src/repository.mjs:646-648 | With nothing purged, the selected rows are the whole interval after the position, cut at the limit |
| Feeds.SelectSound | src/repository.mjs:646-648 | The selected rows are retained, within the window, and at most the limit |
| FeedSafety.CollectOrdered | src/repository.mjs:652-684 | Candidates stand in the strict order of the scanned rows they answer for |
| FeedSafety.CollectCut | src/feeds.mjs:333-393 | Cutting the candidates after the n-th entry is the same as scanning no further than the row that entry answers for |
| FeedSafety.CandidateMeaning | src/repository.mjs:652-684 | A change without a candidate is outside the filter or has its record's deletion ahead; a candidate within the watermark is the event as it happened; any other is a deletion sent early |
| FeedSafety.CandidatesCover | src/repository.mjs:652-684 | The candidates of a range account for every sequence in it, unless a deletion is sent early |
| FeedSafety.AssembledPage | src/feeds.mjs:333-393 | Each of the three page shapes, gaps or none, carries exactly the candidates of the rows retained up to its checkpoint, and continues from there if it continues |
| FeedSafety.ServedPage | src/feeds.mjs:108-206 | Every page of every read, from the start or not, carries the candidates of what is retained up to its checkpoint, which is within the watermark; a cursor it hands out is strictly later than where the read began, so never the start position, and its own read is checked; a checked read's page, and any other over a whole range, accounts for every sequence of the range |
| FeedSafety.ContinuedFrom | src/feeds.mjs:347-393 | A page that is continued was asked on from exactly where it ended, with its watermark, by a checked read |
| FeedSafety.PassEnds | src/feeds.mjs:333-393 | Every pass from C to W, one from the start included, with anything happening between its reads, moves strictly forward, keeps W and takes at most W - C pages |
| FeedSafety.ChainCovers | src/feeds.mjs:333-393 | Sound pages of a pass from C to W, laid end to end, account for every sequence once and in order, and are at most W - C |
| FeedSafety.PageSoundStable | src/feeds.mjs:333-393 | What a page accounts for stays true whatever is written or purged afterwards |
| FeedSafety.EarlyDeletionSent | src/repository.mjs:660-669 | A page reaching a change whose record was deleted beyond the watermark, with the deletion retained, carries the notice of the last deletion under its own later sequence |
| FeedAnswers.CheckpointAnswered | src/feeds.mjs:108-206 | A read from a checkpoint fails with each error exactly when its condition on the number, the epoch, the head and the retained sequences holds; otherwise it is answered, or too large |
| FeedAnswers.ContinuationAnswered | src/feeds.mjs:126-206 | So does a continuation, whatever its cursor holds |
| FeedAnswers.StartAnswered | src/feeds.mjs:134-206 | A read from the start is never refused but for size |
| FeedAnswers.TooLargeIff | src/feeds.mjs:275-298 | A read not refused otherwise is too large if and only if one of the candidates it looks at cannot fit a page of its own |
| FeedAnswers.CaughtUpIsAnswered | src/feeds.mjs:119-124 | The poll of a replica that has caught up gets an empty last page, whatever has been purged |
| FeedAnswers.FullestPage | src/feeds.mjs:333-393 | An answered page takes the longest prefix of the candidates of its scan that is within the limit and 8 MiB |
| Paging.FitCountLongest | src/feeds.mjs:275-298 | The admitted records are the longest prefix that fits by count and by bytes |
| Paging.FitCountRejects | src/feeds.mjs:284-289 | The page is refused if and only if a record that cannot fit alone is looked at, which includes the first record past a full page |
| Paging.FitCountProgress | src/feeds.mjs:275-298 | Where nothing is refused, a non-empty input yields a non-empty page |
| Paging.FitCountNonEmpty | src/feeds.mjs:275-298 | A page assembled from candidates always moves on |
| Paging.CheckPageFits | src/protocol.mjs:189-212 | The check accepts exactly the lists whose count, single records and running total are within bounds, returns that total, and says which of the three bounds was broken first |
| Paging.FitRecordsToPage | src/feeds.mjs:275-298 | The loop admits what the specification says, its total is the true one, and the second accounting it runs at the end never disagrees |
| Paging.CountIs | src/feeds.mjs:276 | A limit of 0 means 100; any other is taken as it is within 1 to 1000 |
| Paging.OverheadExact | src/feeds.mjs:325-330 | The marker trick is exact: a page's bytes are the overhead plus the bytes of its records array, for every marker and every records value |
| Paging.EmissionWithinBudget | src/feeds.mjs:347-377 | Whatever cursor, checkpoint and flag a page is sent with, it costs no more than the budget computed with others |
| Paging.SentWithinBudget | src/feeds.mjs:347-377 | The text sent is no longer than the total its records were admitted by |
| Cursors.TokenLength | src/protocol.mjs:262-265 | The length of a cursor is a function of its payload's bytes |
| Cursors.PayloadText | src/protocol.mjs:262-263 | The payload's text has seven members, version 1 first, in a fixed order |
| Cursors.TokenBudget | src/feeds.mjs:208-220 | No cursor of a pass is longer than the one at its watermark, under any authenticator |
| PageBytes.EmittedWithinBudget | src/feeds.mjs:347-393 | A page as sent is no longer than the total its records were admitted against |
| PageBytes.PageWithinLimit | src/feeds.mjs:333-393 | Whatever is asked of the changes feed, a page with records is within the byte limit as sent |
| PageBytes.SnapshotPageWithinLimit | src/feeds.mjs:396-437 | A snapshot page, budgeted with the position of the last member looked at and sent with that of the last one admitted, is within the byte limit |
| Envelope.EveryPageWithinLimit | src/feeds.mjs:333-393 | No page the changes feed answers with, for any history, request, page limit and validated epoch and filter, exceeds 8 MiB as sent |
| Envelope.EverySnapshotPageWithinLimit | src/feeds.mjs:396-437 | No page of any snapshot does, as long as positions are spelled with one width |
| Browse.PageBuilder.Add | src/feeds.mjs:300-316 | A record is taken exactly when count and the true size of the page ending with it allow; only a first record is an error |
| Browse.PageBuilder.Finish | src/feeds.mjs:317-321 | What is sent, with or without a continuation, is within the limit and ends at the last record taken |
| Browse.TotalIsTrue | src/feeds.mjs:307-311 | The running total the builder compares is the serialized size of the page |
| Json.ArrBytes | src/feeds.mjs:278-283 | The size of an array is its elements' sizes, commas and brackets |
| Json.ObjBytes | src/protocol.mjs:181-183 | The size of an object is its names' and values' sizes with their framing |
| Decimals.DecimalBijection | src/replica.ts:83-88 | A sequence text and its number determine each other, and the numbers are those below 2^64 |
| Decimals.ValidatorsAgree | src/canonical.js:74-81 | The server's and the replica's separately written decimal validators accept the same texts |
| Decimals.SpellLengthMonotone | src/feeds.mjs:347-362 | A smaller sequence never has the longer spelling |
| Positions.DecodeIff | src/feeds.mjs:71-96 | A text decodes to a snapshot place if and only if it is that place's encoding; none decodes to the start |
| Epochs.GenerationIff | src/repository-contract.mjs:79-88 | Generations and their epoch names determine each other |
| Epochs.RotationsNeverRepeat | src/repository-contract.mjs:90-105 | However often a generation epoch is rotated, no epoch occurs twice |
| History.MatchesIff | src/snapshots.mjs:85-90 | A filter turns away what has another direction, another box, or neither end of the conversation it asks for, and nothing else |
| History.ApplyCovers | src/replica.ts:220-234 | Applying what accounts for P+1..Q carries a faithful copy from P to Q |
| History.FaithfulStable | src/replica-store.ts:70-93 | Writes and purges by others never turn a faithful copy into an unfaithful one |
| History.FaithfulAtEndIsExact | src/replica.ts:191-237 | A faithful copy at the end of its pass is the log folded to its checkpoint, if no later deletion has been purged |
| History.CoversOrdered | src/replica.ts:94-103 | A list that accounts for a range is in strictly increasing order within it |
| Exactness.PassExactIff | src/replica.ts:191-237 | Any number of pages applied in turn to an exact copy, writers and the purger at work between any two, leave an exact copy if and only if every record one of them hid is gone at the last checkpoint |
| Exactness.ExactIffNothingHidden | src/replica.ts:191-237 | After one accepted page an exact copy is exact at the page's checkpoint if and only if no record written in the page's range has been deleted since |
| Exactness.InexactCopyExpires | src/feeds.mjs:144-206 | A finished copy that is not exact lacks a purged deletion; no page from its checkpoint reaches past it, and one that would have to is refused with ERR_CURSOR_EXPIRED |
| Exactness.HiddenIsDeletedLater | src/repository.mjs:660-669 | What hides a record is a deletion beyond the page |
| Exactness.HiddenRecordServed | src/repository.mjs:660-669 | A concrete history, and a continued read of it, whose page passes every check and leaves a record out |
| Exactness.MidPassInexact | src/replica.ts:191-237 | A concrete pass of two pages that is inexact after the first and exact after the second |
| Replica.SortItemsStable | src/replica.ts:94-98 | The client's sort orders by sequence and keeps the events of each sequence in their places |
| Replica.EveryPagePassesChecks | src/replica.ts:94-117 | Every page the feed answers with, over any gaps, passes the client's shape check; if it passes the event check, sorting changes nothing |
| Replica.ServedPagePassesChecks | src/replica.ts:94-117 | If a sound page passes the event check, its events account for its range |
| Replica.EarlyDeletionStallsPass | src/replica.ts:94-103 | Once a record changed in the range still to be read is deleted beyond the watermark, a page that reaches the change is rejected while the deletion is retained |
| Replica.EarlyDeletionServed | src/repository.mjs:660-669 | A concrete history, and a continued read of it, whose page passes the shape check and is rejected by the event check |
| Replica.CheckpointNeverStalls | src/replica.ts:94-103 | A read from a checkpoint is never rejected |
| Replica.RejectionIsEarlyDeletion | src/replica.ts:94-103 | A rejected page names such a change and such a deletion; nothing else is rejected |
| SnapshotFeed.TakeSnapshot | src/repository.mjs:386-437 | The member list is the view at the watermark, each member once, in keyset order |
| SnapshotFeed.ResumeAfter | src/repository.mjs:753-775 | Resuming after the i-th member yields exactly the members that follow |
| SnapshotFeed.ServedSnapshotPage | src/repository.mjs:706-828 | A snapshot page is the next members in order and says there are more exactly when there are |
| FeedAnswers.ServedMembersLive | src/repository.mjs:739-768 | What is served may be served: the snapshot is active and unexpired, and every record on the page has not been deleted |
| FeedAnswers.SnapshotAnswered | src/repository.mjs:706-768 | A snapshot page is refused with each error exactly when its condition holds; an authentic request on a snapshot in force expires if and only if one of the members it would look at has been deleted |
| FeedAnswers.FullestSnapshotPage | src/feeds.mjs:396-437 | It takes the longest prefix of its window within the limit and 8 MiB, and says there are more exactly when members are left |
| SnapshotFeed.FromTheStart | src/repository.mjs:753-757 | A cursor at the start reads what no cursor reads |
| SnapshotFeed.StagedIsExact | src/replica-store.ts:70-80 | A fully staged snapshot is the log folded to its watermark |
| SnapshotFeed.SnapshotStable | src/repository.mjs:386-437 | A snapshot stays the view at its watermark whatever happens to the log |
| World.World.Interfere | src/replica-store.ts:70-93 | Any number of steps of writers, purger, epoch rotation, snapshot invalidation, other clients committing, reading and applying, other scopes' commits, and the signal keep the replica faithful and descended from an exact snapshot by served pages; versions only move on |
| World.World.Write | src/repository.mjs:204-327 | Another writer's event keeps everything the replica relies on |
| World.World.Purge | src/repository.mjs:846-920 | Dropping any set of change rows does |
| World.World.Rotate | src/repository.mjs:329-361 | A new epoch that begins with any history, kept rows and a running allocator included, with every snapshot invalidated, does |
| World.World.Serve | src/repository.mjs:626-704 | The server's answer to a coverage is noted with the history it was served from and stays usable for as long as the coverage is in force; an expired continuation is refused |
| World.World.ListChanges | src/repository.mjs:626-704 | Unless the call fails on the way, the answer is the one the server gives to the coverage's request at that moment, error or page; what a page says of its history stays true |
| World.World.ApplyIncrementalPage | src/replica-store.ts:76-79 | Rows, checkpoint and continuation move together, only from the expected version, and the replica stays faithful |
| World.World.Take | src/replica-store.ts:76-79 | So do those of another client's page, however long ago it was served |
| World.World.OtherCommits | src/replica-store.ts:73-85 | Another client's snapshot replaces the copy under a later generation, and pages asked for before it can no longer be applied |
| World.World.OtherScope | src/replica-store.ts:80-85 | Another scope's commit under one epoch takes coverage and stages of every other epoch with it, and pages asked for before can no longer be applied |
| World.World.BeginSnapshot | src/replica-store.ts:70-79 | A stage begins only from the expected version and changes nothing visible |
| World.World.StageSnapshotPage | src/replica-store.ts:73-74 | Staged rows stay out of sight |
| World.World.CommitSnapshot | src/replica-store.ts:73-85 | The staged rows replace the visible ones in one step, from the version captured at the beginning, and stages of other epochs go |
| World.World.DiscardSnapshot | src/replica-store.ts:70-93 | A discard touches staged rows only |
| Sync.ApplyChanges | src/replica.ts:191-237 | With anything happening between its steps, a completed pass leaves a faithful copy that reaches its watermark, or what the server held when it began; no pass goes over a sequence that had been purged when it began, and a finished copy that was not exact is never completed by one; at most maxPages requests |
| Sync.StagePages | src/replica.ts:153-185 | The paging loop ends early, or with exactly the snapshot's members staged |
| Sync.StageSnapshot | src/replica.ts:128-189 | Each stage begun ends in exactly one commit or one discard; complete means faithful and no older than the server was |
| Sync.Refresh | src/replica.ts:268-296 | It asks for one snapshot, unless the signal comes first; a snapshot that is not active is not staged; an error is the last failure, or the client's own finding; and a committed snapshot is followed up by changes while budget is left |
| Sync.SyncHistory | src/replica.ts:240-296 | Complete means faithful at the reported checkpoint, exact there if and only if every record hidden by a page applied since the snapshot is gone, and covers all the server held at the start or the end of the resumed pass. A run without coverage asks for one snapshot; a pass that fails with ERR_CURSOR_EXPIRED or ERR_EPOCH_CHANGED is followed by another look at the coverage and one request for a snapshot, unless the signal stops it; any other failure is returned as it is, with no request. Counts, coverage and status say what was done: partial with the budget spent, cancelled with the signal seen, a snapshot followed up by changes while budget is left. Requests are within twice maxPages, and within maxPages unless a snapshot replaced existing coverage; nothing is written once the signal is seen |
| Sync.HeldIsExactIff | src/replica.ts:191-237 | At every moment of every run, with any number of clients, the copy held is the log folded to its checkpoint if and only if every record hidden by a page applied since its snapshot is gone there |
| Sync.CompleteIsExact | src/replica.ts:240-296 | In particular after a completed synchronization with no later deletion purged |
| OutboundProtocol.RunKeepsRights | src/outbound-runtime.js:157-229 | In every run the right to send a reserved slot is held by at most one invocation and used at most once |
| OutboundProtocol.AtMostOneSend | src/outbound-runtime.js:82-230 | Between two wipes a record key is sent at most once, over a run at most once more than the store was wiped, and always with exactly the reserved body |
| OutboundProtocol.OrphanNeverSent | src/outbound-runtime.js:178-193 | A reservation whose holder has sent, or is gone, is never sent again, whatever is called later |
| OutboundProtocol.ResultsMeanWhatTheySay | src/outbound-runtime.js:195-229 | Accepted means the store moved the record to accepted and, unless wiped, still has it so or deleted; failed after an attempt means a payment demand, and only that |
| OutboundProtocol.WipeForgets | src/repository.mjs:329-361 | After a wipe the same message is sent again, and the old idempotency row answers for the new record |
| OutboundProtocol.AcceptedIffNoStaleRow | src/outbound.ts:99-114 | In every run, when an invocation at the archive reports accepted, the archive's record is accepted or deleted if and only if the answer is not an idempotency row left by an earlier generation for a record that is neither |
| OutboundProtocol.WrittenAcceptance | src/outbound.ts:99-114 | A confirmed change to accepted means the record was accepted |
| OutboundOutcomes.WriteTells | src/outbound-runtime.js:195-229 | A state change takes effect on the key's record alone, exactly when the store allows it, and leaves it accepted after a confirmation, failed after a demand for payment, unknown after anything else |
| OutboundOutcomes.WriteReports | src/outbound-runtime.js:205-229 | What the caller is told after each answer of the transport, and that it was persisted exactly if the change was made, or reported made, and heard of |
| OutboundOutcomes.RefuseMarks | src/outbound-runtime.js:41-48 | A preflight failure is recorded without an attempt, only under a free key and only by the in-process store |
| OutboundOutcomes.PatchTells | src/repository.mjs:253-303 | Another party can move a record at the archive exactly if it is not accepted, to any other state, one revision further |
| OutboundOutcomes.RemovalTells | src/repository.mjs:296-361 | A deletion leaves a trace of the key, a wipe leaves no record but the idempotency rows |
| OutboundOutcomes.FirstCall | src/outbound-runtime.js:157-229 | An undisturbed call for a free key sends its attempt once and leaves a record in the state the answer stands for |
| OutboundOutcomes.RepeatedCall | src/outbound-runtime.js:178-193 | A call for a used key sends nothing: it is told the record's state or of a conflict by the in-process store, which marks a record left prepared unknown; and by the archive only whether the content is the same |
| OutboundOutcomes.LostClaim | src/outbound-runtime.js:171-176 | A claim whose request or answer is lost fails without a send |
| OutboundOutcomes.AcceptedHasSource | src/outbound-runtime.js:195-229 | In every run a record was moved to accepted only after the transport had confirmed a send of its key by a holder of the reservation, of that generation or an earlier one, or because another party patched it |
| OutboundOutcomes.AcceptedUnwiped | src/repository.mjs:329-361 | Without wipes there is one generation only |
| OutboundOutcomes.LateAnswer | src/outbound.ts:99-114 | A concrete run in which an answer that arrives after a wipe marks accepted a record reserved since and never sent |
| Outbound.Machine.Others | src/outbound-runtime.js:82-230 | Whatever anyone else does leaves an invocation where it stands |
| Outbound.AttemptStore.ClaimPrepared | src/outbound.ts:62-97 | Only the creator gets the one-shot right; a lost answer yields none |
| Outbound.AttemptStore.SetState | src/outbound.ts:99-114 | The reservation is given up before the request, so it is spent at most once |
| Outbound.SendPreparedHttpOnce | src/outbound-runtime.js:82-230 | The call is one run of its invocation: it throws exactly for the wrong wallet or origin or a key that cannot be made; a refusal carries its code, and is offered to the store under the key unless paid sending was asked for; a call that attempts has an encrypted body, the capability's own origin, permission checks off, and is about exactly what was passed in; and the transport is called once if the result says attempted and never otherwise |
| Outbound.RefusalIff | src/outbound-runtime.js:122-152 | Each validation refuses exactly the calls that pass those before it and fail it; names are blank exactly if nothing is left of them once trimmed |
| Outbound.MachineSends | src/outbound-runtime.js:82-230 | The bounds hold at any moment of any machine |
| OutboundProtocol.RightsClaim | tests/m0-attempt-store.mjs:18-27 | A claim of a free key reserves it for the claimant, who alone gets the right to send, if the answer arrives; any other claim reserves nothing; nothing is sent |
| Inbound.Pass.ArchiveOne | src/inbound.ts:189-242 | A message with a known key gets the cached status if its content is the cached one and a conflict if not; one with a new key gets the archive's answer, and is cached exactly if that confirms it |
| Inbound.Pass.ArchivePage | src/inbound.ts:182-243 | When it is through, the page's outcomes stand in order, failed says whether one of them is not archived, and, in acknowledge mode, exactly the archived ones are put up for acknowledgement, in page order and with their places; it throws only if the signal was raised or a key cannot be made |
| Inbound.Pass.Acknowledge | src/inbound.ts:245-259 | One call with the host and ids of archived messages of one of its pages, counted only if it succeeds; it removes nothing unarchived if and only if the pass has cached every message the host has shown under one of the ids |
| Inbound.Pass.Settle | src/inbound.ts:245-272 | What follows a page's messages is one acknowledgement of exactly the messages put up, whose outcomes alone change; where the pass goes next, and that no archived message is left waiting; harmless under the cached condition and no other |
| Inbound.Pass.ReadBox | src/inbound.ts:165-273 | A box left without incomplete was read to its end and everything in it dealt with; incomplete if and only if a budget is used up or an outcome says something failed; nothing archived is left waiting; a signal raised before ends it at once |
| Inbound.Pass.SyncPending | src/inbound.ts:139-278 | Every acknowledged id is that of a message archived before, one confirmed archive per key, true counters and budgets; unless the run threw or spent its message budget inside a page, no archived message is left waiting for an acknowledgement, whatever else failed; incomplete if and only if a budget is used up or an outcome says something failed; complete means every box of every host was read to its end, every message archived, and its id acknowledged if asked; it throws only for the signal or a key that cannot be made |
| Inbound.Pass.Log | src/inbound.ts:139-278 | No step adds an acknowledgement that what came before does not justify |
| Inbound.Mark | src/inbound.ts:249-256 | Marking a page's outcomes changes their acknowledgement only, and the count by their number |
| InboundLedger.CarefulStep | src/inbound.ts:245-251 | A justified acknowledgement keeps the whole trace careful |
| InboundLedger.CacheStep | src/inbound.ts:212-241 | The cache is exactly what was confirmed, and no key is confirmed twice |
| InboundLedger.SafeIffCached | src/inbound.ts:212-241 | A message is safe if and only if the cache holds its content under its key |
| InboundLedger.NothingLostIff | src/inbound.ts:245-251 | Acknowledging removes no unarchived message if and only if no acknowledged id is shared by an archived and an unarchived message shown on that host |
| InboundLedger.UniqueIdsLoseNothing | src/inbound.ts:245-251 | So none is removed where ids are unique on a host |
| InboundLedger.SharedIdLost | src/inbound.ts:245-251 | A concrete careful pass over two messages with one id that acknowledges the unarchived one |
| InboundLedger.CompleteReadSeesBox | src/inbound.ts:98-117 | If pages report truly on an unchanging box, a complete read without acknowledgements saw all of it, in order |
| InboundLedger.CompleteDrainSeesBox | src/inbound.ts:245-251 | If pages report truly on a box only this pass changes, a complete read in acknowledge mode has emptied it, saw every message or one with its id, and all of it in order if ids are unique |
| InboundLedger.ValidateIff | src/inbound.ts:98-117 | A page is refused exactly if it disagrees about where the next begins, promises more with nothing on it, or has a message without an id |
| Base64.DecodeEncode | src/canonical.js:249-279 | Decoding an encoding gives the bytes back |
| Base64.CanonicalIffEncoding | src/canonical.js:281-288 | A text is canonical if and only if it is the encoding of some non-empty bytes |
| Base64.CanonicalIffZeroPadBits | src/canonical.js:281-288 | Equivalently, if and only if it has the right shape and zero pad bits |
| Base64.EncodeLoop | src/canonical.js:267-279 | The encoding loop computes the encoding |
| Base64.DecodeLoop | src/canonical.js:249-265 | The decoding loop fills its buffer with the decoding |
| Base64.UrlBijection | src/protocol.mjs:214-229 | The unpadded form accepts exactly the encodings, and decodes each to what it encodes |
| Fips180.PaddedLayout | src/canonical.js:101-109 | Section 5.1.1 of FIPS 180-4: the message, the marker, fewer than 64 zeros to a whole number of blocks, and the length in the last 64 bits |
| FipsConstants.RoundConstants | src/canonical.js:84-94 | Each round constant is the first 32 bits of the fractional part of the cube root of its prime |
| FipsConstants.InitialValue | src/canonical.js:111-118 | The initial hash values are those of the square roots of the first eight primes |
| FipsConstants.FirstPrimes | src/canonical.js:83-94 | The primes are the first 64: each prime, and none between two of them |
| FipsWords.BitwiseIff | src/canonical.js:136-151 | AND, OR, XOR and complement work bit by bit on words |
| FipsWords.RotrBit | src/canonical.js:96-98 | A rotation takes each bit from n places above, going round |
| FipsWords.ShrBit | src/canonical.js:96-98 | A shift to the right takes each bit from n places above |
| FipsWords.ShlBit | src/canonical.js:96-98 | A shift to the left takes each bit from n places below, zeros coming in |
| Sha256.PaddedLengthIff | src/canonical.js:103 | The padded length is the least multiple of 64 with room for marker and length if and only if the input is shorter than 2^31 - 72 bytes |
| Sha256.RotateIsRotr | src/canonical.js:96-98 | The signed rotation is the rotation of section 3.2 |
| Sha256.RoundIsRound | src/canonical.js:136-151 | One pass of the loop, in mixed signed and unsigned arithmetic, is one round of section 6.2.2 |
| Sha256.ExtendedIsScheduled | src/canonical.js:123-127 | One new schedule word, as computed, is the one of section 6.2.2 |
| Sha256.Pad | src/canonical.js:102-109 | The buffer filled in place is the padded message |
| Sha256.Expand | src/canonical.js:122-127 | The two loops fill the message schedule |
| Sha256.Rounds | src/canonical.js:128-151 | The loop of 64 rounds computes the rounds of section 6.2.2 |
| Sha256.HashBlocks | src/canonical.js:121-160 | The block loop computes the hash values |
| Sha256.Sha256Bytes | src/canonical.js:101-172 | The digest is that of FIPS 180-4 section 6.2 |
| Utf8.EncodeInjective | src/canonical.js:44-60 | On strings without lone surrogates UTF-8 is injective |
| Utf8.LoneCollides | src/canonical.js:44-60 | Every string with a lone surrogate shares its form with another string |
| Utf8.RecoveredIff | src/canonical.js:44-60 | The surrogate pattern matches exactly the strings that cannot be recovered |
| RecordKey.JoinedInjective | src/canonical.js:229-242 | Length-prefixed bytes parse one way only |
| RecordKey.Join | src/canonical.js:229-242 | The loops fill the buffer with the length-prefixed fields |
| RecordKey.PreimageInjective | src/canonical.js:218-243 | Different validated field tuples are hashed from different bytes |
| RecordKey.CanonicalRecordKey | src/canonical.js:218-243 | The key computed is the hexadecimal digest of the preimage; invalid fields throw |
| RecordKey.SameKeySameMessage | src/canonical.js:218-243 | Equal keys mean equal fields, or a SHA-256 collision |
| RecordKeyReads.PreimageReads | src/canonical.js:229-242 | Read back, the bytes hashed are the domain, owner, direction, box, sender, recipient and message id, in that order, and nothing more |
| RecordKeyReads.KeyedIff | src/canonical.js:191-228 | Exactly the identities whose keys match the pattern and whose box and id are valid Unicode, of 1 to 128 and 1 to 256 units, without control characters and not blank when trimmed have a record key |
| RecordKeyReads.DigestReads | src/canonical.js:174-180 | A key is 64 lowercase hexadecimal digits, each two of them a byte of the digest |
| JsonGrammar.Letters | src/canonical.js:290-360 | The blanks, digits, escapes and literals of RFC 8259, in characters |
| JsonSkip.SkipJsonWhitespace | src/canonical.js:290-297 | The loop stops at the first character that is no JSON blank |
| JsonSkip.ScanJsonStringEnd | src/canonical.js:299-314 | The loop finds what the scan specification finds, and ends on every text |
| JsonSkip.SkipJsonValue | src/canonical.js:316-360 | The recursive loops compute the skip specification and end on every text |
| JsonSkipCorrect.StringEnds | src/canonical.js:299-314 | A string of RFC 8259 section 7 ends where the scan says |
| JsonSkipCorrect.NumberLiteralEnds | src/canonical.js:358-359 | A number of section 6 ends where the pattern's longest match ends |
| JsonSkipCorrect.ValueSkipped | src/canonical.js:316-360 | Every value of the grammar is skipped exactly to its end if its nesting is within 100, and given up on otherwise |
| JsonDuplicates.AssertNoDuplicateTopLevelKeys | src/canonical.js:363-395 | The loop throws when the search specification says so |
| JsonDuplicates.DuplicateIff | src/canonical.js:363-395 | On every object text the check throws if and only if two names it gets to see, up to the first value nested too deeply, decode to the same string |
| JsonDuplicates.EmptyObjectPasses | src/canonical.js:363-373 | An empty object never throws |
| IpKeys.LiteralHasKey | src/service.ts:389-476 | Every literal of RFC 4291 section 2.2, in either family and with an embedded quad or not, gets the key of the address it denotes |
| IpKeys.WrittenHasKey | src/service.ts:464-476 | So does it with letters in capitals, blanks around it, or a zone after it |
| IpKeys.SameKeyIffSameAddress | src/service.ts:464-476 | Two accepted texts get the same key if and only if they denote the same address, IPv4-mapped forms identified with IPv4 |
| IpKeys.KeyTextInjective | src/service.ts:452-460 | Different addresses have different keys |
| IpKeys.AcceptedIsLiteral | src/service.ts:402-476 | Whatever is accepted is a literal: no malformed text has a key |
| IpKeys.NormalizeIdempotent | src/service.ts:464-476 | Normalising a key changes nothing |
| IpCorrect.UndottedIs | src/service.ts:413-420 | A trailing dotted quad is replaced by the two groups it stands for |
| IpCorrect.V4Shown | src/service.ts:384-400 | A dotted quad, leading zeros or not, gets the quad of its values |
| RateLimit.Limiter.Consume | src/service.ts:357-378 | A request is denied exactly when its key has used up the window; the map's new content and order, and the wait, none for an admission, are as specified |
| RateLimit.Limiter.Evict | src/service.ts:345-354 | Other windows go first, then the least recently admitted |
| RateLimit.Moved | src/service.ts:361-374 | Readmitting a known key keeps the map bounded, in order of last admission, and its counts true |
| RateLimit.Inserted | src/service.ts:375-377 | Admitting a new key does, and crowds out a key only after that many others |
| RateLimit.Limiter.OverAdmissionIsCrowding | src/service.ts:317-323 | The map stays within maxKeys with counts in 1..limit, and a key admitted more often in one window saw at least maxKeys other keys admitted after it |
| RateLimit.RetryReachesNextWindow | src/service.ts:340-343 | Waiting the returned seconds reaches the next window, and a second less would not |
| Cleanup.Scheduler.Execute | src/service.ts:1892-1924 | A pass in progress is joined, never doubled |
| Cleanup.Scheduler.Start | src/service.ts:1938-1942 | Starting arms exactly one timer and starts no pass |
| Cleanup.Scheduler.StopNow | src/service.ts:1947-1959 | Stopping disarms the timer and reports what was cancelled and what is in flight |
| Cleanup.Scheduler.RunNow | src/service.ts:1943-1946 | A pass is refused while stopped and joined while one is at work |
| Cleanup.Scheduler.Tick | src/service.ts:1931-1935 | A tick runs or joins one pass and adds one continuation that waits for it |
| Cleanup.Scheduler.Clear | src/service.ts:1918-1922 | A finished pass gives up its place, and only then can another begin |
| Cleanup.Scheduler.Continue | src/service.ts:1926-1935 | When a tick's pass is done one continuation fewer waits, and a started scheduler has a timer again |
| Cleanup.Scheduler.Anything | src/service.ts:1863-1977 | Over every interleaving: at most one pass and one timer at any time, and no pass is begun while stopped or beside another |
| Cleanup.Scheduler.NeverSilent | src/service.ts:1852-1862 | A started scheduler always has a timer, a pass or a callback due |
| OwnerLocks.Locks.Enter | src/repository-contract.mjs:226-235 | A call waits for the newest unfinished call of its owner and becomes the newest |
| OwnerLocks.Locks.Start | src/repository-contract.mjs:227-229 | When a call's body starts, no other call of its owner is running |
| OwnerLocks.Locks.Finish | src/repository-contract.mjs:229-231 | The entry is dropped unless a later call has taken it over |
| OwnerLocks.OneAtATime | src/repository-contract.mjs:223-237 | Calls of one owner run one at a time and in call order |
| OwnerLocks.EntryIffQueued | src/repository-contract.mjs:229-233 | An owner has an entry exactly while one of its calls is not over |
| OwnerLocks.FirstIsNeverBlocked | src/repository-contract.mjs:229-234 | The first unfinished call of an owner is never blocked, however the calls before it ended |
| Restore.Validate | src/restore-recovery.mjs:28-80 | A bundle is accepted exactly when its header is coherent, its receipts are covered and no key occurs twice |
| Restore.AcceptedIff | src/restore-recovery.mjs:28-80 | What an acceptable bundle is, field by field, and that it is refused for its receipts exactly if it is addressed well and they are not asserted complete |
| Restore.Database.Apply | src/restore-recovery.mjs:91-189 | Recovery succeeds for exactly the bundles that apply or were applied; failures, each with its own code, and replays change nothing, an application one owner only |
| Restore.Database.ApplyTwice | src/restore-recovery.mjs:116-131 | Applying a bundle twice leaves what applying it once leaves |
| Restore.FenceAll | src/restore-recovery.mjs:148-164 | The loop makes good every receipt, in order, at consecutive sequences |
| Restore.ReceiptsAreFenced | src/restore-recovery.mjs:140-164 | No receipt key is live; each has a tombstone and a deletion at a sequence above every earlier one and within 64 bits |
| Restore.CountersAreTrue | src/restore-recovery.mjs:166-174 | Counts and bytes are those of the surviving rows, the bytes lost are those deleted, no snapshot is active |

## Left out

- Sync.SyncHistory: complete does not mean equal to the fold, which is false of the code; its contract carries the exact condition instead.
- Inbound.Pass.Acknowledge: that only archived messages are removed, which is false of the code where ids are shared; the exact condition is InboundLedger.NothingLostIff.
- Envelope.EverySnapshotPageWithinLimit: timestamps are taken to be spelled with one width, as Date.prototype.toISOString spells those of four-digit years.
- OutboundProtocol.AtMostOneSend: per generation of the store, because delete-all makes a second send possible.
- Sha256.Sha256Bytes: inputs of 2^31 - 72 bytes or more, for which the original cannot allocate its buffer.
- Inbound.Pass.SyncPending: validation and de-duplication of the options, the page size asked for, and error codes of outcomes.
- World.World.CommitSnapshot: pruning rows no coverage refers to, and what it takes from other scopes; one scope is modelled, and what other scopes' commits take from it is World.World.OtherScope.
- World.World.OtherScope: a generation is taken never to be given out again after its coverage is lost, which the contract leaves open; rows shared by overlapping scopes are not modelled.
- IpLiteral.Normalize: lower-casing is that of ASCII letters; no other character lower-cases into a literal.
- Cleanup.Scheduler.StopNow: the bounded wait that follows it, and the outcome callback.
- Restore.Database.Apply: row locks and the SQL text; the digest of a bundle is a parameter.
- Epochs.RotationsNeverRepeat: epochs of the random shape, which only differ from the one they replace.
- The SQLite and MySQL adapters: the in-memory adapter's row selection is modelled; the SQL ones refuse two more kinds of rows.
- FeedSafety.ServedPage: a read from the start is exempt from retention checks in the code, so it answers for every sequence only where none of its range has been purged.
- Record expiry: the adapter modelled stores none, so the checks of it never apply.
- Inbound.Pass.Archive: how the answer to one archive request is read; it confirms, or it does not.
- Snapshot quotas, lifetimes and purging: a snapshot may become invalid at any step.
- The replay guard and the admission tracker: bounded counters whose properties can be read off.
- Cursor authentication, the wallet, the paid-transport guard and HTTP: outside the model.
- Date parsing, JSON.parse beyond string tokens, and random identifiers are taken as given.
