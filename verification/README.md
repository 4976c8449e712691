# Verification of deepseek-lens

Dafny models of the parts of deepseek-lens whose correctness is not visible in
any one function, with proofs over all inputs, runs and interleavings.
`dafny verify dfyconfig.toml` checks the whole project.

## What is modelled

- **Event streams** (`Sse`, `SseChunking`, `SseStandard`, `SseWhole`, `SseCapture`). The
  incremental parser with its carry buffer, as a class with the source's loops,
  proved against functions on byte sequences. How a stream is cut into chunks
  does not matter. For every byte stream it is settled when the block parser
  dispatches what the line-by-line dispatcher of the HTML Living Standard
  (sections 9.2.5 "Parsing an event stream" and 9.2.6 "Interpreting an event
  stream") dispatches: exactly when the stream is *separable*, no complete block
  has a bare `data` line and no BOM hides the first data line. Streams with one
  kind of line ending are separable. For a whole parse, `Finish` included, the
  same is settled on streams without a BOM or a bare `data` line. The bounded capture
  keeps a head and a sliding tail, and usage recovered from the two is that of
  the whole stream.
- **The two-store body archive** (`Archive`, `ArchiveStore`). Bodies move
  between a hot table and day files through separate commits. `Archive` is the
  protocol: every commit is one action, processes stop between any two, and an
  invariant over all runs says no body is lost. `ArchiveStore` is the store with
  the source's loops; each operation may be cut short after any commit (`life` is
  how many the process still makes), its state stays one the protocol reaches,
  a completed operation has an exact effect, and each completes whenever the
  process lives for the commits it needs.
- **Session rows** (`ModelSets`, `Sessions`, `SessionStore`). The row that
  `UpsertSession` keeps by adding deltas equals plain aggregation after any run of
  flushes and purges, including the comma-joined `model_set` text column; which purges
  may fall inside a flush is settled exactly.
- **The consumer** (`SessionMemo`, `Consumer`, `Sink`). Resolving a batch with
  the per-flush memo ends in the tables that one-call-at-a-time processing ends
  in exactly when every repeated prefix fits its window. With a store that may fail or
  panic at any write, every call becomes one row or one counted failure. Submits to the
  sink interleave step by step.
- **Smaller protocols and codecs.** `Broker`: streams without gaps. `StateFile`:
  who may write and remove `serve.state.json`, over any number of processes.
  `Edits`: undo and frame of JSON path edits on values; `EditsInPlace`: the same
  edits on cells that point at each other, walked with a cursor and changed in
  place. `Prices`: the price file reads back.
  `Pricing`: rounding bounds. `Calendar`: UTC keying against Beijing keying.
  `Texts` and `Options` hold what several of them share.

## Where the code and its documentation part

- `internal/pricing/pricing.go:114-116` says a peak call costs exactly twice its
  off-peak amount. That holds before rounding; after it the amounts differ by up
  to one micro-dollar, and are exactly double only for small rounded-away
  fractions (`Pricing.PeakIsAlmostDouble`).
- `internal/consumer/consumer.go:306-308` argues that a flush is short against
  the resolver's window, so a repeated key is the same session. What the rule
  compares is when the calls *began*. `SessionMemo.FlushIsOneAtATime` gives the
  exact condition: every repeat of a prefix is resolved within the window of the
  latest activity known for it, or would mint the id its first call minted. Slow
  calls break it (`SessionMemo.SlowCallsPart`).
- `internal/cli/serve.go:234-237` takes the state file's disappearance as proof
  that the store behind it is closed. That is so for the process the file names
  when it goes, then and ever after (`StateFile.RemovalMeansClosed`,
  `StateFile.RemovedStaysClosed`), not for one it named before: another process can
  take the ports, restamp the file and remove it first, and then both ports refuse
  as well (`StateFile.GoneIsNotClosed`).
- `internal/parse/sse.go` does not follow the event-stream standard on mixed
  line endings, a bare `data` line, a leading BOM, or an unterminated last event,
  which `Finish` flushes and the standard discards. Each has a lemma with inputs.
  `SseStandard.BlockParserMeetsStandard` says for `Feed`, and
  `SseWhole.WholeParseMeetsStandard` for `Feed` and `Finish`, exactly which streams
  are affected. A bare line and an unterminated event can make up for each other
  (`SseWhole.BareMadeUpFor`), which is why the second excludes bare lines.
- A purge that falls between a batch's selection and its hot commit does not erase
  the body: the archiver writes it to the day file and marks the row that is gone, and
  neither a later purge nor `GCArchive` removes the two
  (`Archive.PurgeInsideAnArchiveKeepsTheBody`; `body_archive` has no foreign key).
  `Archive.StrayMarkers` says for every run which purged rows this happens to.
- `internal/store/store.go:1165-1171` rebuilds a session from its rows, those a flush
  has committed and not yet folded among them; `internal/api/purge.go` runs on another
  goroutine than the consumer. The fold then counts such a call again
  (`SessionStore.PurgeMidFlushCountsTwice`). `SessionStore.FlushAroundAPurge` gives the
  exact condition: the purge takes no call of a session with a call still waiting.
- A crash between a restore's day-row delete and its marker delete
  (`internal/store/archiver.go:609-612`) keeps the body readable but makes a
  later restore of that row end in an error (`ArchiveStore.StoppedRestoreBlocks`);
  `RestoreBetween` completes exactly when every listed marker has its day row.
- `internal/store/store.go:313-326` reads a request in up to three queries of their
  own: hot row, marker, day row. A restore of that row between the first two hides
  a body that was never lost (`Archive.RestoreInsideAReadHidesABody`); archiving,
  collecting, and restoring or purging other rows in between do not
  (`Archive.ReadInThreeParts`). `Archive.ReadInThreePartsExactly` says which reads
  are good, whatever ran between.

## Hypotheses

- Archive: one archiver and one restorer are under way at a time (any number of
  purges), and no `GCArchive` day falls between a batch's day-file write and its
  hot commit, as in the one maintenance goroutine of `internal/cli/serve.go:288-299`.
  `Archive.GcInTheWindowLosesABody` and `Archive.StaleCommitLosesABody` show what
  happens otherwise, and `Archive.CommitLosesNothing` what a hot commit needs, whoever
  else is under way. Request ids are never reused (`internal/store/store.go:72`).
  zstd returns what it was given and encodes nothing to nothing.
- Sessions: no store failures, costs are exact integers, model names have no
  comma (exactly what is needed: `ModelSets.AddModelAddsExactly`), and a purge inside a
  flush takes no call of a session with a call waiting for its fold (exactly what is
  needed: `SessionStore.PurgeInsideAFlush`).
- Memo: the clock does not run backwards during a flush (`Forward`); minted ids are
  new and differ between prefixes, and no header names a prefix-keyed session
  (`Apart`); no two sessions of a prefix were last active at the same instant
  (`NoTies`).
- State file: opening with takeover, rewriting and removing are each one step, a
  pid names one process, and all processes on a file listen on the same two
  addresses.

## Model

| member | source | states |
|---|---|---|
| Sse.FindEvent | internal/parse/sse.go:174-209 | splits off the first block and its blank-line terminator, or reports that none is complete and returns the buffer unchanged |
| Sse.SplitLines | internal/parse/sse.go:280-304 | the block's lines under LF, CRLF and lone CR endings; an empty unterminated last line is not one |
| Sse.Parser.DataParts | internal/parse/sse.go:228-235 | the values of the block's `data:` lines in order, one leading space removed |
| Sse.Parser.ProcessEvent | internal/parse/sse.go:224-245 | folds the block's payload into usage and event count, and fails exactly on an `error` event |
| Sse.Parser.Apply | internal/parse/sse.go:249-276 | each column by name from the decoded event: a start message sets model and its own input, cache-creation and cache-read counts, a delta its running output total and a stop reason that is not empty; nothing else changes, malformed JSON changes nothing, and only an error event fails |
| Sse.Parser.Feed | internal/parse/sse.go:139-151 | processes every complete block of carry plus chunk in order, stopping after the first error event, and keeps the rest |
| Sse.Parser.Finish | internal/parse/sse.go:156-166 | flushes the remainder as one block and empties the carry |
| SseChunking.MoreInput | internal/parse/sse.go:134-138 | more input never changes a block that is already complete, whichever terminator it has |
| SseChunking.FeedThenFeed | internal/parse/sse.go:139-209 | feeding s and then more leaves what feeding both at once leaves, errors included |
| SseChunking.ChunkingDoesNotMatter | internal/parse/sse.go:139-209 | any split into chunks gives the usage, event count, error and carry of one Feed of the whole; after an error the buffers differ by the unread chunks |
| SseChunking.ChunksGiveTheStream | internal/parse/sse.go:139-166 | what chunked feeding leaves depends on the stream alone: the fold of its payloads up to the first error, and its carry |
| SseChunking.AnyTwoSplitsAgree | internal/parse/sse.go:139-166 | two splits of one stream agree on totals, error and Finish result |
| SseStandard.BlockParserMeetsStandard | internal/parse/sse.go:174-245 | the payloads of the complete blocks, which `Feed` processes up to the first error, are exactly the standard's events if and only if no blank line the block finder misses closes an event, no complete block has a bare `data` line, and no BOM stands before a data line that gets closed; for every byte stream |
| SseStandard.UniformStreamsMeetStandard | internal/parse/sse.go:168-173 | with one kind of line ending throughout, the parser's events are the standard's exactly when no complete block has a bare `data` line and no BOM hides the first |
| SseStandard.PayloadsAgainst | internal/parse/sse.go:174-245 | the parser never dispatches more events than the standard, and with as many events never more bytes |
| SseStandard.OneEvent | internal/parse/sse.go:224-245 | the bytes of `data: `, a one-line value and two line feeds are one event, exactly that value, here and in the standard |
| SseStandard.MixedEndingsPart | internal/parse/sse.go:174-209 | LF then CRLF closes an event in the standard and not in `Feed`, for every one-line event |
| SseStandard.BareDataParts | internal/parse/sse.go:230-235 | a bare `data` line dispatches an empty event in the standard and none here |
| SseStandard.BomParts | internal/parse/sse.go:230-235 | a leading BOM hides the first data line here and not in the standard |
| SseWhole.WholeParseMeetsStandard | internal/parse/sse.go:54-74 | without a BOM or a bare `data` line, a whole parse folds exactly the standard's events if and only if every complete block holds at most one of them and the remainder no data or one group that a blank line closes |
| SseWhole.UsageIsTheStandards | internal/parse/sse.go:54-74 | the usage of such a stream is the fold of the standard's events, up to the first error |
| SseWhole.UniformWholeParse | internal/parse/sse.go:156-173 | with one kind of line ending the two agree exactly when the stream does not end in the middle of an event |
| SseWhole.UnterminatedParts | internal/parse/sse.go:156-166 | an unterminated last event is flushed here and discarded by the standard |
| SseWhole.MixedEndingsJoin | internal/parse/sse.go:174-209 | two events with LF then CRLF between are two in the standard and one here, `Finish` or no |
| SseWhole.BareMadeUpFor | internal/parse/sse.go:230-235 | a stream with a bare line and an unterminated event on which the two agree all the same |
| SseCapture.BoundedBuffer.Write | internal/proxy/proxy.go:241-257 | head and tail are the first `cap` bytes and the last min(tailCap, overflow) bytes of everything written, however it was split; the full length is reported |
| SseCapture.LastOfLast | internal/proxy/proxy.go:250-255 | trimming the tail at each write keeps what trimming once at the end would |
| SseCapture.ExtractUsageWithTail | internal/parse/sse.go:54-74 | head, blank line, tail and Finish, stopping at the first error |
| SseCapture.SeamCloses | internal/parse/sse.go:62-65 | the inserted blank line completes the head's torn block with its payload unchanged and leaves nothing or one LF |
| SseCapture.SeamSeparates | internal/parse/sse.go:54-74 | the result is the fold of the head's events, the closed torn block, and the tail's events parsed on their own |
| SseCapture.HeadEvents | internal/parse/sse.go:174-209 | a prefix's events are those of the blocks whole in it, then the torn one |
| SseCapture.TailEvents | internal/parse/sse.go:174-209 | a suffix's events are the torn block's remainder, then those of the blocks that begin in it |
| SseCapture.ColumnsAreTheLast | internal/parse/sse.go:249-276 | over any payloads without an error each column is what the last payload that sets it says, and every payload counts |
| SseCapture.FirstErrorEnds | internal/parse/sse.go:139-151 | the first error event counts, changes no column, and nothing after it is folded |
| SseCapture.DoneOnlyCounts | internal/parse/sse.go:240-244 | the `[DONE]` sentinel counts and sets nothing |
| SseCapture.RecoveredUsage | internal/parse/sse.go:249-276 | head and tail fold to the whole stream's usage when each torn piece is its block's whole payload or sets nothing, and the tail sets again what was lost |
| SseCapture.UsageSurvivesTheCap | internal/proxy/proxy.go:241-268 | under those conditions the capped capture reports the model, tokens and stop reason of parsing the whole stream |
| Archive.SafeReads | internal/store/archiver.go:333-434 | in a safe state every live row reads as first inserted, up to nil against empty |
| Archive.StepCommit | internal/store/archiver.go:79-107 | the hot commit (markers in, bodies out) keeps every body in exactly the place a read will look |
| Archive.StepWrite | internal/store/archiver.go:114-150 | a day-file write keeps the invariant, replacing any row left by an earlier attempt |
| Archive.StepLoad | internal/store/archiver.go:586-593 | what a restore reads from the day file is the original body |
| Archive.StepGc | internal/store/archiver.go:276-312 | collecting a day outside the archiver's window removes nothing a marker names |
| Archive.StepKeepsInv | internal/store/archiver.go:35-112 | every commit of every process keeps the invariant |
| Archive.NoRunLosesABody | internal/store/archiver.go:25-26 | after any interleaving of inserts, archiving, restoring, purging and collecting, cut short anywhere, every row that no purge has named is live, every live row reads as inserted, and every marker's file exists |
| Archive.ReadInThreeParts | internal/store/archiver.go:333-434 | a read whose three queries fall at three times gives the body as inserted, whatever runs in between, unless that very row is restored or purged |
| Archive.ReadInThreePartsExactly | internal/store/archiver.go:333-434 | whatever runs between the three queries, the read is as inserted if and only if the day row of the marker it found is still there, or it had the bodies already and that marker's file, if any, is still there |
| Archive.RestoreInsideAReadHidesABody | internal/store/store.go:313-326 | in a run from the empty store, a whole restore between a read's first and second query makes it return the row without its body |
| Archive.CommitLosesNothing | internal/store/archiver.go:79-107 | in any state of safe tables, every live row reads as inserted after a hot commit of any batch if and only if each of the batch's live rows has its day row at that moment, or has no body and its day file is there |
| Archive.GcInTheWindowLosesABody | internal/store/archiver.go:292-298 | a collection between day write and hot commit makes the read fail |
| Archive.StaleCommitLosesABody | internal/store/archiver.go:79-107 | a second archiver committing a batch that was archived and restored meanwhile loses the body |
| Archive.StrayMarkers | internal/store/archiver.go:84-100 | after any run a purged row has a marker if and only if a hot commit of its batch came after its purge, and then the day row the marker names is there with the body |
| Archive.PurgeInsideAnArchiveKeepsTheBody | internal/store/archiver.go:84-100 | a run from the empty store, its last step a collection of the day, that ends with no live row and the purged body in the day file |
| ArchiveStore.SelectBatch | internal/store/archiver.go:40-62 | at most 32 of the earliest archivable rows, and all of them when fewer |
| ArchiveStore.LiveRowsRead | internal/store/archiver.go:25-26 | in every state of the store between two operations, cut short or not, a live row is found and reads as inserted |
| ArchiveStore.BodyStore.GetRequest | internal/store/store.go:313-326 | the hot row overlaid by its day row; a live row is found and equals what was inserted, also with an archiver or restorer under way |
| ArchiveStore.BodyStore.WriteDay | internal/store/archiver.go:114-150 | puts exactly these rows in one day's file and leaves a protocol state |
| ArchiveStore.BodyStore.WriteDays | internal/store/archiver.go:66-75 | grouped by day, the whole batch ends in its day files exactly when the process lives for one commit a day |
| ArchiveStore.BodyStore.CommitBatch | internal/store/archiver.go:79-107 | marks and empties exactly the batch, once its days are written |
| ArchiveStore.BodyStore.ArchiveBatch | internal/store/archiver.go:66-107 | one batch moved whole, exactly when the process lives for its days and one commit more; else no live row is lost and each still reads |
| ArchiveStore.BodyStore.NextBatch | internal/store/archiver.go:36-111 | one turn of the loop: the next batch is added to what has moved, or nothing is left, or the process did not live for two commits a row; no live row is lost |
| ArchiveStore.ArchivedMore | internal/store/archiver.go:36-111 | archiving batch after batch adds up to archiving their union |
| ArchiveStore.BodyStore.ArchiveOlderThan | internal/store/archiver.go:35-112 | terminates, and completes whenever the process lives for two commits a counted row; completed, every row older than the boundary with a body and no marker has lost its bodies to its day's file, encoded, and has that day as its marker, and every other row is as it was; cut short anywhere, the live rows are those of before |
| ArchiveStore.ArchivedElsewhere | internal/store/archiver.go:35-112 | a completed pass leaves every other day row and every earlier marker as it was |
| ArchiveStore.BodyStore.RestoreOne | internal/store/archiver.go:590-614 | load, hot commit, day-row delete, marker delete, with the three places a crash can fall; no live row is lost in any of them |
| ArchiveStore.BodyStore.RestoreBetween | internal/store/archiver.go:556-617 | completes exactly when every listed marker has its day row and the process lives for three commits a row; then every marked row with `since <= at < until` is hot as first inserted with neither marker nor day row, every other row is as it was, and the count is theirs; else it names a missing day row, or was cut short with the count of hot commits its life allowed; no live row is lost |
| ArchiveStore.RestoredElsewhere | internal/store/archiver.go:556-617 | after a completed restore exactly the markers of the range and the day rows they named are gone, and every other is as it was |
| ArchiveStore.StoppedRestoreBlocks | internal/store/archiver.go:609-612 | in a run, a restore stopped between the two deletions leaves a row that every later restore of its range lists and whose marker names no day row |
| ArchiveStore.ArchivedHasDayRows | internal/store/archiver.go:71-75 | after an archive pass a marker lacks a day row only if it lacked it before |
| ArchiveStore.ArchiveThenRestore | internal/store/archiver.go:35-112 | an archive pass and then a completed restore of a range gives back the same bodies and leaves none of its rows a marker or the day row it named |
| ArchiveStore.BodyStore.GCArchive | internal/store/archiver.go:245-314 | no read changes however far it got and no day row changes that stays; finished, as it is whenever the process lives for one commit a file, the files are those a marker names and their rows exactly the marked ones |
| ArchiveStore.CollectedReads | internal/store/archiver.go:244 | a partial collection changes no read |
| ArchiveStore.BodyStore.PurgeWhere | internal/store/store.go:986-1050 | whatever archiver or restorer is under way: the rows that stay are exactly those the clause does not match, the markers exactly theirs and strays', and the count is of the rows matched beforehand; matched rows read as not found and all others as before however far the day files got; finished, as it is whenever the process lives for one commit more than the days named, the day rows gone are exactly those the matched rows' markers named |
| ArchiveStore.BodyStore.SweepDays | internal/store/archiver.go:176-183 | day by day deletes only the day rows the purged rows' markers named, and all of them when the process lives for one commit a day, whatever archiver or restorer is under way |
| ModelSets.ContainsIsMember | internal/store/store.go:821-823 | the instr test holds exactly when the name is one of the comma-separated names |
| ModelSets.AddModelAdds | internal/store/store.go:821-827 | the upsert's CASE adds the name to the set and nothing else; an empty name adds nothing |
| ModelSets.AddModelAddsExactly | internal/store/store.go:821-827 | the CASE adds a non-empty name and nothing else if and only if the name has no comma |
| ModelSets.ModelsOfJoin | internal/store/store.go:1197-1205 | GROUP_CONCAT of distinct names stands for exactly those names |
| ModelSets.CommaBreaksTheSet | internal/store/store.go:821-827 | a name with a comma counts as two |
| Sessions.FoldKeeps | internal/store/store.go:809-841 | folding a stored call keeps every row the aggregate of the folded calls |
| Sessions.MergeIsAggregate | internal/store/store.go:815-827 | the conflict update of an aggregate row is the aggregate with the call |
| Sessions.FirstIsAggregate | internal/session/session.go:135-149 | the inserted row of a session's first call is its aggregate |
| Sessions.RebuiltIsAggregate | internal/store/store.go:1172-1229 | the rebuild is the aggregate of what is left, and a session with nothing left loses its row |
| Sessions.CountIsNumber | internal/store/store.go:1180-1184 | COUNT(*) as summed is the number of the session's calls |
| Sessions.SumsPlainly | internal/store/store.go:1180-1190 | each column of the reference: a folded call of the session adds its own count, tokens, cost, priced or unpriced flag and warnings |
| Sessions.RowPlainly | internal/store/store.go:1180-1190 | every other id adds nothing, and an agreeing row has each sum in the column of its name |
| Sessions.PurgeKeeps | internal/store/store.go:986-1050 | with every row the aggregate of its folded calls, a purge keeps them so if and only if no surviving call of a session it rebuilds waits for its fold |
| SessionStore.FlushKeeps | internal/consumer/consumer.go:296-321 | a flush leaves every session row the aggregate of its stored calls |
| SessionStore.FlushStores | internal/consumer/consumer.go:296-321 | every call of a flush stands at the next free ids, in order, with as many warnings as it raised; no earlier row and none of its warnings changes |
| SessionStore.RowsAgree | internal/store/store.go:794-808 | after any run of flushes, step by step, and purges at any moment where they take no call of a session with one waiting: with no flush under way a session has a row exactly when it has stored calls, and the row is their count, sums, first and last time, and model set |
| SessionStore.RunLeavesNoOrphans | internal/store/schema.sql:78-87 | over any run no warning names a request that is gone |
| SessionStore.FlushIsARun | internal/consumer/consumer.go:296-321 | the steps of a run, a row commit and then one fold after another, make up the whole flush |
| SessionStore.PurgeInsideAFlush | internal/consumer/consumer.go:542-580 | a purge between a flush's row commit and its remaining folds ends with every row the aggregate if and only if it takes no call of a session with a call still waiting |
| SessionStore.FlushAroundAPurge | internal/store/store.go:1165-1171 | the same for a whole flush with a purge after any number of its folds |
| SessionStore.FoldOrderDoesNotMatter | internal/session/session.go:113-117 | folding the same calls in any two orders gives the same sessions and totals |
| SessionStore.PurgeMidFlushCountsTwice | internal/store/store.go:1165-1171 | a purge between a flush's commit and its folds counts the waiting call twice |
| SessionStore.SessionTables.InsertRequests | internal/store/store.go:217-239 | the batch's rows with consecutive ids |
| SessionStore.SessionTables.UpsertSession | internal/store/store.go:809-841 | inserts, or adds column by column with min, max and model set; the prefix stays |
| SessionStore.SessionTables.RecordCall | internal/session/session.go:123-150 | the whole row, column by column: the call's own figures for a new session, with no prefix for a header-keyed one, and added to what was there with first and last widened and the prefix kept for an old one, whether or not the call's row is still there; no other session changes |
| SessionStore.SessionTables.Flush | internal/consumer/consumer.go:296-321 | rows, then each call's warnings and fold; every row is the aggregate again |
| SessionStore.SessionTables.ReconcileSession | internal/store/store.go:1172-1229 | rebuilds or deletes one session's row and touches no other |
| SessionStore.SessionTables.PurgeWhere | internal/store/store.go:986-1050 | the rows and warnings that stay are exactly those of the calls the clause does not match; exactly the sessions that lost a call are rebuilt, keeping their prefix, and all others stay as they are; both counts; every row is an aggregate afterwards if and only if no call of a rebuilt session was waiting for its fold |
| SessionMemo.LatestSessionByPrefix | internal/store/store.go:754-766 | a most recently active session of the prefix, or none exactly when there is none |
| SessionMemo.ResolveCall | internal/session/session.go:93-111 | header, else a most recently active session of the prefix if one was active within the configured gap, or within five minutes for the empty prefix, else a new id; without ties there is one answer |
| SessionMemo.PrepareBatch | internal/consumer/consumer.go:423-438 | the batch resolved with the memo against the sessions as they stood, one key asked for once |
| SessionMemo.SameAnswer | internal/consumer/consumer.go:423-438 | what the memo answers is what a lookup after the earlier folds would, if and only if the call is no repeat of a prefix or fits |
| SessionMemo.MemoStep | internal/session/session.go:93-111 | folding one call keeps what the memo knows: the session chosen took every call of its prefix, and its rivals are as they were |
| SessionMemo.MemoFollows | internal/consumer/consumer.go:296-321 | from any point of the batch on, memo and reference end in the same tables exactly while the repeats fit |
| SessionMemo.GroupedIsEach | internal/consumer/consumer.go:314-320 | storing the batch in one transaction and then finishing its calls ends where storing each on its own does |
| SessionMemo.FlushIsOneAtATime | internal/consumer/consumer.go:296-321 | a whole flush ends in the tables that resolving, storing and folding its calls one at a time ends in, if and only if every repeated prefix fits |
| SessionMemo.FlushBatch | internal/consumer/consumer.go:296-321 | the loops over the store store and fold one of the batch's preparations, every row an aggregate; without ties it is the memo's, and ends where the reference ends if and only if every repeated prefix fits |
| SessionMemo.SlowCallsPart | internal/consumer/consumer.go:301-309 | two calls of a new prefix, the second resolved past the window of the first, share a session in a flush and get one each when processed alone |
| Consumer.Consumer.InsertGrouped | internal/consumer/consumer.go:504-511 | all rows or none, an error or panic at any row or at the commit leaving the table as it was |
| Consumer.Consumer.InsertOne | internal/consumer/consumer.go:517-534 | one row and one processed, or one failure and nothing else |
| Consumer.Consumer.InsertBatch | internal/consumer/consumer.go:471-497 | each prepared call becomes one row or one failure; an id is set exactly for the rows, in order, and names the row that holds the call |
| Consumer.NamedPlainly | internal/consumer/consumer.go:471-497 | what an id says of its call: set exactly when the row landed, and then past the first rows, naming the row that holds the call |
| Consumer.Consumer.FlushBatch | internal/consumer/consumer.go:296-321 | processed is the number of rows; calls lost in the first half or at insert are counted; the second half runs once for exactly the stored calls |
| Consumer.LandsOnce | internal/consumer/consumer.go:460-463 | every call ends as exactly one row if it lands and as none if not |
| Consumer.OneBadRow | internal/consumer/consumer.go:460-463 | one bad row costs only itself, wherever the grouped write stopped |
| Sink.Sink.constructor | internal/sink/sink.go:62-67 | a capacity of zero or less becomes 4096 |
| Sink.IdsDiffer | internal/sink/sink.go:75-80 | two submits never give the same id, whatever the start times |
| Sink.Sink.Stamp | internal/sink/sink.go:75-80 | draws a number no submit has drawn and makes it the call's id |
| Sink.Sink.Send | internal/sink/sink.go:82-88 | takes the call exactly when there is room, whatever submits drew numbers in between; no two calls taken share an id |
| Sink.Sink.Count | internal/sink/sink.go:84-87 | each submit is counted once: submitted is accepted plus dropped plus those still under way |
| Sink.Sink.Submit | internal/sink/sink.go:74-90 | the three steps in a row, other submits being anywhere in theirs: accepts exactly when there is room and counts itself once; the queue fits and nothing taken is lost or reordered |
| Sink.Sink.AtRest | internal/sink/sink.go:74-98 | with no submit under way submitted is accepted plus dropped, accepted is drained plus queued, and no two calls share an id |
| Sink.Sink.Receive | internal/sink/sink.go:101-103 | calls are drained in the order taken |
| Broker.Broker.Subscribe | internal/api/broker.go:50-66 | a stream that begins with the next event |
| Broker.Broker.Gapless | internal/api/broker.go:69-81 | between calls a subscriber has been handed every event since it subscribed and a dropped one those up to its drop; what is not yet received is buffered, at most 64 |
| Broker.Broker.Unsubscribe | internal/api/broker.go:56-64 | closes once, and again is a no-op, also after a drop |
| Broker.Broker.Publish | internal/api/broker.go:69-81 | each subscriber with room gets the event, each without is closed and removed keeping what it had; every stream stays gapless, at most 64 buffered, closed exactly when not subscribed |
| Broker.Broker.Offer | internal/api/broker.go:72-80 | one subscriber's turn in a publish, readers having received in between: the event if there is room, else closed and removed; every stream stays gapless |
| Broker.Broker.Receive | internal/api/broker.go:46-49 | the next buffered event, also from a closed channel and between two sends of one publish |
| StateFile.ServeStateFile.constructor | internal/cli/statefile.go:110-122 | exclusive create, takeover of a dead owner's file with its start time, a live owner's left alone |
| StateFile.ServeStateFile.BindWon | internal/cli/statefile.go:128-134 | stamps the file with this process and the bound addresses, or leaves it when the write fails |
| StateFile.ServeStateFile.Remove | internal/cli/statefile.go:144-151 | removes only its own file, unless it lost the bind or was told to leave it |
| StateFile.StepKeepsInv | internal/cli/serve.go:153-172 | every step of every process keeps ports, phases and file consistent |
| StateFile.OwnerIsNamed | internal/cli/statefile.go:89-98 | from its rewrite until its listeners close a process is alive, the one the file names with its own addresses, and the only one there |
| StateFile.PortsAreHeld | internal/cli/serve.go:153-172 | in any run each port is bound exactly while the process that bound it has neither closed it nor died |
| StateFile.StoreIsOpen | internal/cli/serve.go:58-68 | in any run a process has its store open from opening it until its close or an early return, and never after the deferred close |
| StateFile.StartPlainly | internal/cli/statefile.go:110-122 | what a starting process leaves in the file in each of the three cases |
| StateFile.StampPlainly | internal/cli/statefile.go:128-134 | the bind winner's stamp names it, its start time and its two addresses while it holds both ports |
| StateFile.RemovalMeansClosed | internal/cli/serve.go:233-246 | a file naming p goes only by p's own removal with its store closed, or by the CLI once p is dead |
| StateFile.RemovedStaysClosed | internal/cli/serve.go:233-246 | in every later world too the store of the process it named is closed |
| StateFile.LoserLeavesTheFile | internal/cli/statefile.go:136-158 | after a failed bind or a drain not joined in time, no later step of that process removes the file |
| StateFile.ShutdownEnds | internal/cli/serve.go:210-246 | a serving process can always stop; it ends dead with both ports free and its store closed, and its file goes if the drain was joined in time and stays if not |
| StateFile.GoneIsNotClosed | internal/cli/shutdown.go:61-69 | a file that named p can be gone, with both ports free, while p lives with its store open |
| Edits.AppliesWhereItNames | internal/replay/edit.go:159-207 | an edit succeeds exactly when its path names a place, replaces exactly that value and records it |
| Edits.EditFrame | internal/replay/edit.go:159-207 | every place elsewhere keeps its value, places above keep their shape, places below are those of the new value |
| Edits.SamePlaceSameEdit | internal/replay/edit.go:181-187 | paths that resolve to one place are one edit, however their indices are written |
| Edits.AtoiDecimal | internal/replay/edit.go:184-197 | a decimal in 64 bits is read as the number it stands for under either sign, and one beyond them is refused |
| Edits.AtoiRefuses | internal/replay/edit.go:184-187 | the empty text and one with anything but digits after a sign are no index |
| Edits.EditsThatElement | internal/replay/edit.go:184-201 | the part that writes n in decimal replaces the n-th element and no other, and is an error past the end |
| Edits.EditsThatField | internal/replay/edit.go:164-179 | a key replaces the field of that name and is an error if there is none; so are the empty key and any part at a scalar |
| Edits.IndexTexts | internal/replay/edit.go:181-187 | leading zeros and a plus sign name the same element |
| Edits.LaterEditWins | internal/replay/edit.go:104-106 | a second edit of a path gives what it alone would and records the first one's value |
| Edits.UndoOne | internal/replay/edit.go:209-223 | the recorded value at the same path restores the tree |
| Edits.UndoRestores | internal/replay/edit.go:117-135 | the recorded values in reverse order restore the original tree |
| EditsInPlace.Document.Build | internal/replay/edit.go:141-148 | a decoded value is laid out in new cells, each hanging at one place, and no earlier cell changes |
| EditsInPlace.Document.Encode | internal/replay/edit.go:214-218 | marshalling the cells gives the value they hold |
| EditsInPlace.Document.Replace | internal/replay/edit.go:209-223 | the replaced child's value is returned and the whole tree is the old one with exactly that place changed |
| EditsInPlace.Document.ApplyOne | internal/replay/edit.go:159-207 | the cursor walk with its in-place store does what the edit does to the value; an error at any part leaves the tree as it was |
| EditsInPlace.UpdateHolds | internal/replay/edit.go:181-187 | changing one cell changes the value at the place that leads to it and at no other |
| EditsInPlace.OffPathHolds | internal/replay/edit.go:181-187 | a cell keeps its value unless it lies on the way from the changed cell to the root: nothing is aliased |
| EditsInPlace.ApplyEdits | internal/replay/edit.go:117-135 | no edits leave the body as it is, any failure yields no body, else the edited tree's text with every old value recorded |
| Prices.ParseTable | internal/pricing/table.go:113-149 | the loop computes the line-by-line reading, and fails on the first bad line |
| Prices.ParseAssignment | internal/pricing/table.go:128-146 | a written assignment sets exactly the named rate to the number read, and is an error exactly when the model's name, the rate or the field's name is no good |
| Prices.ParseName | internal/pricing/table.go:120-127 | a line without an equals sign makes a good model known, keeping what is known of it, and is an error for any other name |
| Prices.OneBadLine | internal/pricing/table.go:109-149 | one line that does not parse makes the whole file an error |
| Prices.ModelChars | internal/pricing/table.go:176-189 | which characters a model name may have |
| Prices.ParseRateLine | internal/pricing/table.go:125-146 | a printed rate line sets exactly that rate of that model |
| Prices.ParseModelLines | internal/pricing/table.go:242-256 | a model's printed lines bring back exactly its rates, a bare line when it has none |
| Prices.SavedReadsBack | internal/pricing/table.go:191-195 | reading back a saved file gives exactly the table, known models without rates included, for any comment lines in front |
| Prices.SortedModels | internal/pricing/table.go:326-333 | each model once, in order |
| Prices.SaveablePlainly | internal/pricing/table.go:206-218 | what `Save` accepts, rate by rate |
| Prices.Save | internal/pricing/table.go:206-256 | refuses exactly the tables with a bad name or rate; what it writes reads back |
| Prices.Load | internal/pricing/table.go:85-102 | no file is the shipped table, a bad file an error, and exactly the missing shipped models are added |
| Prices.DotBreaksTheLine | internal/pricing/table.go:169-175 | a dotted name's printed line does not parse |
| Pricing.RoundIsNearest | internal/pricing/pricing.go:180-194 | the quotient-and-remainder rounding gives the nearest whole number, halves away from zero |
| Pricing.RoundIsRounded | internal/pricing/pricing.go:183-194 | it depends on the fraction's value only |
| Pricing.RoundedIsMonotone | internal/pricing/pricing.go:183-194 | rounding is monotone |
| Pricing.SumIsExact | internal/pricing/pricing.go:134-158 | multiplying the rates first is multiplying the sum |
| Pricing.Compute | internal/pricing/pricing.go:126-165 | which label a call gets, and that a priced amount is the exact sum rounded once |
| Pricing.PricedPlainly | internal/pricing/pricing.go:126-165 | the amount is the rounded sum of each category at its own rate or else at the input rate, doubled at peak, and approximate exactly when tokens fell back |
| Pricing.PeakIsAlmostDouble | internal/pricing/pricing.go:111-116 | peak is within one micro-dollar of twice off-peak, and exactly twice for which fractions |
| Pricing.PeakIsNotDouble | internal/pricing/pricing.go:111-116 | a call that costs 0 off-peak and 1 at peak |
| Pricing.MoreTokensCostNoLess | internal/pricing/pricing.go:142-157 | with rates that are not negative, more tokens never cost less |
| Pricing.DriftIsHalfACall | internal/pricing/pricing.go:99-102 | a total over n calls is within n/2 micro-dollars of the exact sum |
| Calendar.ParseDateSet | internal/pricing/calendar.go:156-185 | a text parses exactly when it is blank or each of its items does, and the set is the union of their spans |
| Calendar.NewCalendar | internal/pricing/calendar.go:48-63 | succeeds exactly when both texts parse and share no date, with the two sets the texts list |
| Calendar.ItemPlainly | internal/pricing/calendar.go:156-185 | one item: a date, or a range of two that is an error only when reversed or unreadable |
| Calendar.SpansReadBack | internal/pricing/calendar.go:156-185 | a written list of dates and ranges lists exactly their dates |
| Calendar.WrittenSetReadsBack | internal/pricing/calendar.go:156-185 | the spans written out with commas between parse, and list exactly their dates |
| Calendar.WeekdayGoesRound | internal/pricing/calendar.go:118-123 | 1970-01-01 is a Thursday and the weekdays go round from there |
| Texts.SpaceCodes | internal/pricing/table.go:115 | which characters are trimmed |
| Calendar.PeakPlainly | internal/pricing/calendar.go:113-126 | peak is a date that is not off-peak, is a make-up day or Monday to Friday, from 01:00 to 04:00 or 06:00 to 10:00, in nanoseconds of Unix time |
| Calendar.IsPeakIsUtcPeak | internal/pricing/calendar.go:113-126 | the hour test is the window rule on a working day |
| Calendar.UtcKeyingIsBeijingKeying | internal/pricing/calendar.go:97-108 | for any windows in the day, UTC and Beijing keying agree on every calendar and instant exactly when no window reaches past 16:00 UTC |
| Calendar.LateWindowParts | internal/pricing/calendar.go:105-108 | the calendar and instant on which a later window makes them differ |
| Calendar.IsPeakIsBeijing | internal/pricing/calendar.go:97-104 | IsPeak is the Beijing-dated rule |
| Calendar.OffPeakDateFrame | internal/pricing/calendar.go:113-117 | one more off-peak date takes away that date's peak instants and nothing else |
| Calendar.WorkDateFrame | internal/pricing/calendar.go:118-123 | one more work date adds only a weekend date's in-window instants |

## Left out

- HTTP handlers, the reverse proxy, SSE writing, signals and process spawning, the web page and CLI rendering: input, output and user interface.
- SQL text, SQLite locking and WAL: each transaction is one atomic step, and the `replay_of` foreign key is not modelled.
- zstd, gzip, JSON and float text, date text and SHA-256 are functions with the round trips stated where they are used.
- internal/decode, internal/analyze, internal/parse/meta.go, internal/config and live reload: independent one-step checks and field copies.
- Timing of batches, drains and shutdown; flush triggers are any moment.
- Widths of counters, token sums and `int64` amounts: integers are unbounded, so wrap-around and the final `Int64()` truncation are not modelled.
- `parseNonStream`, content-type dispatch and `IsStream` of internal/parse/sse.go.
- ArchiveStore.BodyStore.GetRequest: reads the three tables in one step (`Archive.ReadInThreePartsExactly` is the read in three), and hydrates one request at a time rather than a page.
- `body_mask`, `archived_at`, `ArchiveDay`, `ArchiveStatus` and byte previews of the archive: bookkeeping beside the bodies.
- SessionStore.FoldOrderDoesNotMatter: the prefix a session's first call stores and the order of names in `model_set` depend on the order and are excluded.
- Sessions.FoldKeeps: store failures between a row's commit and its fold, which lose the fold, are excluded by hypothesis.
- Sink.Sink.Submit: the 64-bit counters do not wrap, and the channel is never closed. Its contract is for a submit no other step interrupts; `Stamp`, `Send` and `Count` are the steps of submits that interleave.
- Edits.AppliesWhereItNames: paths come already split at their dots.
- `ParseSet`, `MarshalEdits` and error texts of internal/replay/edit.go.
- Prices.Save: the temporary file, sync and rename, and the `Loader`'s change detection.
- SseStandard.BlockParserMeetsStandard: only the `data` field of the standard is compared (the parser reads no other), and only what `Feed` dispatches; `SseWhole.WholeParseMeetsStandard` adds `Finish`.
- SseWhole.WholeParseMeetsStandard: streams with a BOM or a bare `data` line are excluded, where an unterminated event can make up for what the parser missed.
- SessionMemo.FlushIsOneAtATime: ties between sessions of a prefix, whose order a lookup does not fix, and a clock that steps back.
- StateFile.OwnerIsNamed: read-then-write gaps in takeover and removal, reused pids, and processes configured with different addresses on one file.
- Consumer.Consumer.FlushBatch: warnings and session folds appear only through the failures they count; their effect on the tables is in SessionStore.
