# Verified model of the workbench's protocols and text tools

A Dafny 4.11 project that models the parts of the workbench whose correctness rests on more than one
function, and proves what they promise. `dafny verify dfyconfig.toml` checks all of it.

| area | modules |
|---|---|
| event delivery: outbox, publishers, stream, consumer, dead letters | `Events`, `Outbox`, `DeadLetters`, `Consumer`, `Delivery`, `DeliverySafety`, `DeliveryBatch` |
| the resumable event stream of a run | `StreamLog`, `StreamStore`, `StreamReader`, `StreamClient`, `StreamRuns`, `StreamCursor` |
| promoting a run to a task, and the task stores | `Tasks`, `Promotion`, `PromotionRuns` |
| the login limiter | `LoginAttempts` |
| the tenant schema template: references, canonical form, statements, write and read back | `References`, `Canonical`, `Statements`, `Template` |
| tokens and revoked sessions | `Base64Url`, `Tokens`, `Sessions` |
| update metadata, knowledge bindings, the paging importer | `UpdateMetadata`, `KnowledgeBindings`, `BindingRaces`, `KnowledgeImport` |
| shared | `Text`, `Decimals`, `Options` |

Objects whose methods change their fields are classes; each method is proved equal to a function of the
old state, and the protocol results are proved about those functions. Concurrent protocols are state
machines over their steps, and the results quantify over every sequence of steps. A step that is not
possible in a state leaves it unchanged.

## What the code does not promise

Where a property fails for the code, the project keeps the code, shows the failing case and proves the
exact condition.

- **Canonicalising twice.** It is not idempotent on every text, even when no object is named like a
  schema: `s.b.x.s.b` is one chain of five names. For each text it is idempotent exactly when no pair
  of names, shifted by one behind a replaced reference, is itself replaced
  (`Canonical.TwiceIsOnceIff`); for all texts whose dotted chains have at most n names, exactly when n
  is at most 2, or at most 4 and no object is named like a schema that is replaced
  (`Canonical.IdempotenceLimit`).
- **Renaming a schema** is invisible to the canonical form exactly when the target is `public` or the
  text does not already refer to replaced objects under it (`Canonical.RenamingIsInvisible`).
- **The synthetic notice's number** stays above every stored number, whatever is stored later, exactly
  when the log holds a notice frame and no frame fits any more (`StreamLog.NoticeNumberIsSafe`). In
  futures without a late terminal mark the notice frame alone decides
  (`StreamLog.NoticeNumberStaysAbove`): a stall marks the run without storing one, and a late writer's
  notice then gets the announced number.
- **Frames in order.** What a client of a run holds is the beginning of its log, whatever it visits,
  exactly in the histories in which the log, once unavailable, never becomes longer by two frames than
  it was then (`StreamRuns.OrderIffNeverJumps`); a client without a notice always holds it
  (`StreamClient.ClientInStep`). Such a jump takes a terminal mark written late, when the stream is
  unavailable already, and frames after it (`StreamRuns.LateMarkBreaksOrder`); the late mark alone
  does not cost the order (`StreamRuns.LateMarkAloneKeepsOrder`). Histories without a late mark never
  jump (`StreamLog.CalmNeverJumps`): they are the interleavings of writers, sweeps and resumptions in which
  no notice and no stall comes between a terminal frame and its mark
  (`StreamLog.CalmIffMarksAreUndisturbed`).
- **Frames are listed before the state is read.** A notice leaves the client current exactly when no
  frame was stored between the two reads (`StreamClient.NoticeSkipsIff`). It then keeps what was listed
  and, while the log does not jump, never receives anything else
  (`StreamRuns.NoticeKeepsWhatWasListed`, with a case under all allowed limits in
  `StreamRuns.NoticeCanSkipFrames`).
- **The consumer's limit** is `max(1, max_attempts)` calls per key (`Consumer.ConsumerOutcome`).
- **Dead-lettered rows stay pending** and are published again; no result says that attempts stop.
- **The two dead-letter stores** agree on a history of records exactly when no event's last error text
  is empty after one that was not (`DeadLetters.StoresAgree`).
- **The login bound** of `max(N, 2N - 2)` failures in one window holds for all attempts exactly when
  the lock is at least as long as the window; the settings allow shorter locks
  (`LoginAttempts.LockMustCoverWindow`).
- **One task per run** holds in all runs exactly when creation never raises after the task is stored
  (`PromotionRuns.OneTaskIffAtomic`). The claim of an answered request names a live task exactly when
  the key `promote:<run>` was free at its creation (`PromotionRuns.ClaimIsLiveIffKeyWasFree`), and
  always when creation is atomic and nobody else creates tasks under such keys
  (`PromotionRuns.AtomicClaimsAreLive`).
- **The paging importer** imports a proper part of the list exactly when a page within the limit reports
  a total that its pages have reached while the list goes on (`KnowledgeImport.PartIffShortTotal`). An
  answer without a total counts as the length of its page, so of a longer list it imports the first
  page only (`KnowledgeImport.MissingTotalImportsOnePage`).
- **Changing a binding** in the database reads, deletes and inserts without locking the slot. Log and
  rows of a slot are those of the requests in commit order when no two committed changes overlap, and
  for requests that bind different knowledge bases they agree and chain only then
  (`BindingRaces.FaithfulIffApart`); two overlapping changes can leave the slot with both
  (`BindingRaces.OverlapLeavesBoth`).
- **Setting a task to pending** in the database for a caller who may not see it changes the task and
  reports it missing; in memory it returns it (`Tasks.AnswersNeedView`).
- **A logged-out token** is accepted once more exactly when it expires between the two clock readings
  of a request (`Sessions.LoggedOutTokenIsRefused`).

## Model

| member | source | states |
|---|---|---|
| `References.MatchHereIsThePattern` | scripts/tenant_schema.py:95 | at a position the matcher finds exactly the match that the greedy pattern finds, for every way to read a schema and a name there |
| `References.SubIsScan` | scripts/tenant_schema.py:221 | replacing token by token is the left-to-right scan of the regular expression substitution |
| `References.SubAppend` | scripts/tenant_schema.py:221 | text cut where no name is cut is replaced piece by piece |
| `References.SubAfterRename` | scripts/tenant_schema.py:202-221 | replacing after renaming references is one replacement by the composition: the renamed text reads as the same tokens |
| `References.ReferenceIsReplaced` | scripts/tenant_schema.py:221 | a whole reference anywhere in a text is replaced by what the replacement makes of it, and what stands before and behind is treated by itself |
| `Canonical.WhatIsMarked` | scripts/tenant_schema.py:224-243 | anywhere in a text the schema's own objects become `<SELF>.name`, platform tables under it or `public` become `<PLATFORM>.name`, and every other reference stays as written |
| `Canonical.RenamingIsInvisible` | scripts/tenant_schema.py:224-243 | moving every local `public` reference to another schema and canonicalising there gives the canonical form of the original, if and only if that schema is `public` or not in use in the text |
| `Canonical.StableOnShortChains` | scripts/tenant_schema.py:224-243 | canonicalising twice is canonicalising once for all texts with short enough chains of dotted names |
| `Canonical.TwiceIsOnceIff` | scripts/tenant_schema.py:224-243 | for every text, canonicalising twice is canonicalising once if and only if no pair of names shifted by one behind a replaced reference is itself replaced |
| `Canonical.IdempotenceLimit` | scripts/tenant_schema.py:224-243 | the exact chain length up to which canonicalising is idempotent on all texts |
| `Statements.ParenDelta` | scripts/tenant_schema.py:148-167 | the escape-aware index loop returns the parenthesis balance and quote state of a plain quote-parity scan |
| `Statements.BalanceIs` | scripts/tenant_schema.py:148-167 | outside a string the balance is the number of opening minus closing parentheses, inside it is nothing, and each quote turns one into the other |
| `Statements.LineBalanceIsTextBalance` | scripts/tenant_schema.py:148-194 | scanning line by line gives the balance of the whole text with its line breaks |
| `Statements.SemicolonIs` | scripts/tenant_schema.py:185-194 | a line ends a statement only if its last character that is not blank is a semicolon |
| `Statements.NoiseIs` | scripts/tenant_schema.py:178-182 | exactly blank lines and lines whose first other characters are two dashes are skipped |
| `Statements.ClosedIs` | scripts/tenant_schema.py:183-194 | a group of lines is closed if and only if it ends with its first line that ends in a semicolon with the parentheses since its start closed |
| `Statements.SplitStatements` | scripts/tenant_schema.py:170-199 | the splitting loop returns the statements of the grouping specification |
| `Statements.GroupsAreTheGrouping` | scripts/tenant_schema.py:170-199 | a list of line groups is the splitter's if and only if it holds every meaningful line once in order and each group but the last is the shortest closed statement: nothing is lost and the arrangement is unique |
| `Template.WhatIsRewritten` | scripts/tenant_schema.py:202-221 | anywhere in a text `public.` before a platform table becomes the placeholder, before a local object it goes, and every other reference stays as written |
| `Template.SubKeepsBalance` | scripts/tenant_schema.py:202-221 | replacing names changes neither parenthesis balance nor quote state |
| `Template.SubKeepsLineShape` | scripts/tenant_schema.py:202-221 | a rewritten line is blank, a comment or ended by a semicolon exactly when the line was |
| `Template.WrittenStatementsReadBack` | scripts/tenant_schema.py:418-419 | a header of comments and blank lines and statements joined by blank lines split into those statements |
| `Template.TemplateReadsBack` | scripts/tenant_schema.py:418-471 | for any dump, any choice of statements and any sets of objects, splitting the written template gives exactly the rewritten statements |
| `Template.ResplittingIsStable` | scripts/tenant_schema.py:170-199 | splitting the written statements again is a fixed point |
| `StreamStore.RunStream.constructor` | app/conversation/stream.py:83-91 | a new stream is empty, with the given limits |
| `StreamStore.RunStream.AppendFrame` | app/conversation/stream.py:93-133 | the frame store's append: refused once unavailable or over a limit, else stored under the next number |
| `StreamStore.RunStream.AppendUnavailable` | app/conversation/stream.py:224-268 | one notice frame per run, past the limits; a second call returns the first notice and marks the state again |
| `StreamStore.RunStream.MarkTerminal` | app/conversation/stream.py:167-184 | the state becomes terminal whatever it was, and nothing happens without a state row |
| `StreamStore.RunStream.MarkUnavailable` | app/conversation/stream.py:203-222 | the state becomes unavailable, no frame is stored |
| `StreamStore.RunStream.ReopenIfTerminal` | app/conversation/stream.py:186-201 | only a completed or failed stream reopens, and the answer says so |
| `StreamStore.RunStream.MarkStalled` | app/conversation/stream.py:278-288 | only an idle streaming run becomes unavailable, without a frame |
| `StreamStore.Write` | app/conversation/stream_writer.py:55-133 | one gateway write leaves the log of the store operations it stands for, whether the append, the notice or the terminal mark fails or not |
| `StreamLog.ApplyAllKeeps` | app/conversation/stream.py:93-288 | under any operations numbers stay contiguous from one, the frame counter stays exact, stored frames stay stored and at most one frame exceeds the limit |
| `StreamLog.BytesAreCounted` | app/conversation/stream.py:93-268 | over all operations from the empty log the byte counter is the sum of the stored sizes, and without the notice that sum and the number of frames are within the limits |
| `StreamLog.RefusedIff` | app/conversation/stream.py:112-133 | after any operations a frame is refused if and only if the stream is unavailable or the frames or bytes stored leave no room for it, and else stored under the next number |
| `StreamLog.NoticeIsStoredOnce` | app/conversation/stream.py:224-268 | after any operations a notice is stored if and only if none is, and the stream is unavailable |
| `StreamLog.StatusChanges` | app/conversation/stream.py:167-288 | after any operations the sweep stops exactly idle streaming runs, a mark ends any run with a state row, and only completed and failed runs are resumed |
| `StreamLog.WhatIsWritten` | app/conversation/stream_writer.py:66-92 | with room, a write leaves the frame, and the run failed or completed after a terminal one, whatever happened before |
| `StreamLog.WhatIsRefused` | app/conversation/stream_writer.py:75-104 | without room it leaves no frame but one notice with the limit in the way as its reason |
| `StreamLog.ListFramesIsStretch` | app/conversation/stream.py:135-148 | a listing is the stretch of the log right behind the cursor, at most the limit long |
| `StreamLog.UnavailableIsFinal` | app/main.py:2033-2052 | without a late terminal mark an unavailable stream stays so and at most its missing notice is still stored |
| `StreamLog.WriteIsCalm` | app/conversation/stream_writer.py:55-93 | a write that no other writer interrupts makes no late terminal mark, whatever fails in it |
| `StreamLog.CalmIffMarksAreUndisturbed` | app/conversation/stream_writer.py:66-91 | an interleaving of any writers, sweeps and resumptions is calm if and only if no notice and no stall comes between a stored terminal frame and its mark |
| `StreamLog.NoticeNumberIsSafe` | app/main.py:2136-2149 | over all futures the announced number is above every stored number if and only if a notice is stored and no frame fits any more |
| `StreamLog.NoticeNumberStaysAbove` | app/main.py:2136-2149 | over the calm futures, if and only if a notice is stored |
| `StreamLog.CalmNeverJumps` | app/main.py:2033-2052 | in a history without a late terminal mark the log never grows by two frames behind an unavailable point |
| `StreamLog.LateMarkAddsTwo` | app/conversation/stream.py:167-201 | on any unavailable log with room, a late terminal mark and a resumption let frames be stored from the announced number on |
| `StreamReader.FrameStream` | app/main.py:2079-2153 | the polling generator, with or without a run to start with, makes the turns of the specification, ends, and takes no more than the turn limit |
| `StreamReader.Turn` | app/main.py:2099-2153 | one pass of the loop, with the lookup of the run, is one turn of the specification |
| `StreamReader.ReadFrames` | app/main.py:2113-2153 | the pass for a known run is a reading turn of the specification |
| `StreamReader.SendBatch` | app/main.py:2122-2135 | sending stops at the first terminal frame, moves the cursor and notes a notice |
| `StreamReader.SendingTurn` | app/main.py:2122-2135 | a turn that finds frames sends them from the next one on, up to a terminal one, which closes the connection |
| `StreamReader.ClosingTurn` | app/main.py:2136-2149 | a turn that finds none in a finished stream closes it, with one notice of the next number exactly if the stream is unavailable and none was sent |
| `StreamReader.ReasonIs` | app/main.py:2136-2149 | the reason sent is the text of the last stored frame if that is a notice, and else `stalled` |
| `StreamReader.QuietTurnBeats` | app/main.py:2150-2153 | a quiet turn sends a heartbeat exactly when 15 seconds have passed since anything was sent, and sleeps at least 50 milliseconds |
| `StreamReader.OtherTurns` | app/main.py:2099-2121 | the end of the lifetime and a failing lookup or read close the connection without a word, and without a run it waits |
| `StreamReader.TurnsSpent` | app/main.py:2099-2153 | every turn of an open connection moved the cursor or slept at least the poll interval |
| `StreamReader.ConnectionEnds` | app/main.py:2090-2153 | every connection, under any environment, is closed after at most frames + lifetime / poll + 2 turns |
| `StreamClient.TurnsAreFaithful` | app/main.py:2114-2149 | after any turns the chunks sent are the frames behind the start, one by one, with heartbeats anywhere and a notice only last |
| `StreamClient.ClientInStep` | app/main.py:1954-2153 | over any connections, cut anywhere, with any store operations in between, the client holds a prefix of the log and resumes right behind it until it gets a notice, and keeps a prefix after one while the log does not jump |
| `StreamClient.ReceivedIsPrefix` | app/main.py:1954-2153 | in particular in every calm history, for a client that starts from nothing |
| `StreamClient.ClosesCaughtUp` | app/main.py:2122-2149 | a connection that closes by itself has sent a terminal frame or everything that was stored when it last listed |
| `StreamClient.NoticeSkipsIff` | app/main.py:2114-2149 | a notice leaves the client up to date if and only if no frame was stored between the two reads |
| `StreamRuns.QuietLogIsReceivedWhole` | app/main.py:1954-2153 | completeness: after any visits without a notice, once the log is quiet, as many visits as frames are missing, each with a first turn that reads in time and a chunk that arrives, leave the client with the whole log |
| `StreamRuns.NoticeEndsReceiving` | app/main.py:2033-2149 | once a notice arrived, no visit adds a frame to what the client has while the log does not jump |
| `StreamRuns.NoticeKeepsWhatWasListed` | app/main.py:2114-2149 | and what it has is exactly what was listed before the state was read: frames stored between the two reads never reach it |
| `StreamRuns.NoticeCanSkipFrames` | app/main.py:2114-2149 | under every allowed limit and lifetime such a case exists: two frames are stored and, while the log does not jump, the client gets none |
| `StreamRuns.OrderIffNeverJumps` | app/main.py:1954-2153 | for any history from the empty log: all visits of new clients leave them with a prefix of the log if and only if the log never grows by two frames behind an unavailable point |
| `StreamRuns.LateMarkAloneKeepsOrder` | app/conversation/stream.py:167-184 | a terminal mark after another writer's notice is not calm and still costs no client the order |
| `StreamRuns.LateMarkBreaksOrder` | app/conversation/stream.py:167-201 | followed by a resumption and two frames it does, in a run from the empty log whose mark belongs to a stored terminal frame |
| `StreamCursor.FirstConnectionStartsAtZero` | app/main.py:1954-1969 | without a number the stream starts at its beginning, or behind the parameter |
| `StreamCursor.RejectedIff` | app/main.py:1954-1969 | refused are exactly a presented text that is empty or has a non-digit, blanks around it aside, and a negative parameter |
| `StreamCursor.PresentedNumberIsResumed` | app/main.py:1954-1969 | the number sent with an event resumes right behind it, also with blanks around it, and the parameter only moves the start forward |
| `StreamClient.RememberedIsResumed` | app/main.py:1954-1981 | the last id a client received is accepted and stands for the number it came with |
| `Events.EventBus.Publish` | app/events.py:94-95 | an event is appended unless refused before it; success is reported only for a confirmed append |
| `Consumer.IdempotentEventConsumer.HandleEvent` | app/events.py:187-206 | one delivery gives the verdict and state of the specification, and calls the handler only for a key that is neither done nor given up |
| `Consumer.CallsAreUntilSuccess` | app/events.py:187-206 | from any consistent state the handler calls for a key are its deliveries up to the first success, cut off at what is left of the limit, whatever other keys do |
| `Consumer.ConsumerOutcome` | app/events.py:187-206 | processed exactly when one of those calls succeeded, given up exactly when the limit was reached without success |
| `Consumer.VerdictIs` | app/events.py:187-206 | the answer to a delivery follows from the deliveries before it: duplicate, dead letter, processed or retry |
| `Consumer.GivenUpOnce` | app/events.py:187-206 | each key that is given up is listed once, and no other |
| `DeadLetters.DeadLetterStore.RecordFailure` | app/dead_letters.py:37-47 | the in-memory record: largest attempt number, the old text kept when the new one is empty |
| `DeadLetters.DeadLetterStore.MarkNotified` | app/dead_letters.py:54-60 | true for the first mark of a recorded event only |
| `DeadLetters.DeadLetterStore.Replay` | app/dead_letters.py:62-73 | the gates in order, the append, and the mark only after a confirmed publish |
| `DeadLetters.PostgresDeadLetterStore.RecordFailure` | app/dead_letters.py:97-122 | the upsert: largest attempt number, the text overwritten |
| `DeadLetters.PostgresDeadLetterStore.MarkNotified` | app/dead_letters.py:141-153 | true for the first mark of a recorded event only |
| `DeadLetters.PostgresDeadLetterStore.Replay` | app/dead_letters.py:155-186 | the same gates; an append whose transaction fails stays without a mark |
| `DeadLetters.OthersReplayNothing` | app/dead_letters.py:62-80 | a replay asked for by anyone but a ceo or super_admin of the dead letter's tenant changes nothing and appends nothing |
| `DeadLetters.AdminReplays` | app/dead_letters.py:62-186 | theirs goes to the bus unless the item is marked, and marks it in their name when confirmed and kept |
| `DeadLetters.AnswerIs` | app/dead_letters.py:62-186 | after any records and replays the answer says who may not ask, what was not recorded for the tenant, what was replayed before, and whether publish and mark succeeded |
| `DeadLetters.ReplayedByItsAdmin` | app/dead_letters.py:62-186 | over any records and replays, what was replayed was replayed by such an administrator, whose name it carries |
| `DeadLetters.NotifyingDeadLetterStore.RecordFailure` | app/dead_letters.py:220-255 | the inner record, and one notice with one audit entry when it is the first |
| `DeadLetters.RecordHistory` | app/dead_letters.py:37-122 | after any records exactly the recorded events are there, each with its largest attempt number and the last, or last non-empty, text |
| `DeadLetters.StoresAgree` | app/dead_letters.py:37-122 | the two stores hold the same items if and only if no event's last text is empty after one that was not |
| `DeadLetters.DeskStepKeeps` | app/dead_letters.py:37-255 | every record or replay of either store keeps: one audit entry per notified event, and each append of a replay is the marked one or was left unmarked by an error |
| `DeadLetters.StepAttempts` | app/dead_letters.py:37-186 | in either store recorded attempts never go down, and replays change no attempts |
| `DeadLetters.ReplayedAtMostOnce` | app/dead_letters.py:62-186 | over any records and replays of either store a dead letter is appended again exactly once if it is marked and else never, while publishes are confirmed and, in the database, marks kept |
| `Outbox.BatchIsUnique` | app/outbox.py:35-47 | the query has at most one answer: pending, not locked elsewhere, in (occurred_at, event_id) order, the first ones up to the limit |
| `Outbox.SelectPending` | app/outbox.py:35-47 | and it has one |
| `Outbox.BatchIsOldest` | app/outbox.py:35-47 | a batch holds the oldest unpublished rows that nobody holds, oldest first, the smaller id first among equally old ones, and leaves others out only at the limit |
| `Outbox.WhatIsWritten` | app/outbox.py:49-73 | a confirmed publish marks its row and clears the error, any other adds one attempt and keeps 500 characters of the error, and other rows stay |
| `Outbox.WhatIsRecorded` | app/outbox.py:52-64 | dead letters are recorded for exactly the failures that reach the limit, with the number of the attempt |
| `Outbox.OutboxPublisher.Create` | app/outbox.py:13-19 | no publisher for a limit below one |
| `Outbox.OutboxPublisher.PublishRow` | app/outbox.py:49-73 | one row: the bus call, the row to write, and the dead-letter record from the limit on |
| `Outbox.OutboxPublisher.PublishPending` | app/outbox.py:30-74 | one call marks exactly the rows whose publish succeeded, counts a failure on exactly the others, appends in order, records the due failures, returns the marked count; when the dead-letter store raises, for a record or for its notice, it writes no row and leaves the appends and records made so far |
| `Outbox.AppendedInOrder` | app/outbox.py:41-51 | a batch appends its events in (occurred_at, event_id) order, each once |
| `Outbox.AppendedOldestFirst` | app/outbox.py:41-51 | older events are appended before newer ones, and equally old ones by id |
| `Outbox.CountIsMarked` | app/outbox.py:65-74 | the returned count is the number of newly marked rows |
| `Delivery.StructureStays` | app/outbox.py:30-74 | every step of the delivery system keeps rows, row locks and open batches consistent: a row is held by one batch and a held row is pending |
| `DeliveryBatch.BatchIsPublishPending` | app/outbox.py:30-74 | an undisturbed batch of the delivery system that commits leaves the table, stream and dead letters of the publisher's call |
| `DeliveryBatch.RollbackIsPublishPending` | app/outbox.py:30-74 | and so does one in which a dead-letter record or its notice fails and the batch is rolled back |
| `DeliverySafety.StepBalanced` | app/outbox.py:30-74 | conservation: every step keeps the account of the copies of every event |
| `DeliverySafety.EndToEnd` | app/repository.py:262-282 | in any run each key gets at most its limit of handler calls, at most one of them successful, is never both processed and given up, and every delivered event is the one committed under its key |
| `DeliverySafety.StreamAccounts` | app/outbox.py:30-74 | in any run the copies of an event in the stream are one for its marked row, one for a batch about to mark it, one per append whose mark was lost and one per replay; uncommitted events have none |
| `DeliverySafety.NothingIsLost` | app/outbox.py:30-74 | at least once: a committed event is, after any further steps, in the stream, still pending, or deleted with its task |
| `DeliverySafety.DeadLetterAccounts` | app/outbox.py:52-64 | in any run a dead letter stands for at least the limit and at most the real failures of its row, is notified at most once with one audit entry, and its replays are counted |
| `DeliverySafety.CleanPublishersAppendOnce` | app/outbox.py:30-74 | any number of publishers without rollbacks and lost replies append each row at most once |
| `LoginAttempts.InMemoryLoginAttemptStore.RecordFailure` | app/accounts/rate_limit.py:53-71 | the dictionary step, for this phone only |
| `LoginAttempts.InMemoryLoginAttemptStore.Forget` | app/accounts/rate_limit.py:73-75 | the phone's record is gone and no other |
| `LoginAttempts.PostgresLoginAttemptStore.RecordFailure` | app/accounts/rate_limit.py:158-209 | the upsert's nested cases, for this phone only |
| `LoginAttempts.LoginRateLimiter.FailedLogin` | app/accounts/rate_limit.py:99-116 | a locked phone is refused and unchanged, else the failure is registered; other phones are untouched |
| `LoginAttempts.WindowIs` | app/accounts/rate_limit.py:53-71 | a failure before the window's end counts on, one at its end or later starts a new window |
| `LoginAttempts.LockIs` | app/accounts/rate_limit.py:53-104 | after any history a failure locks the phone for exactly the lock's length if the limit is reached, and a success lifts every lock |
| `LoginAttempts.StepsAgree` | app/accounts/rate_limit.py:62-204 | one failure leaves the same record in both stores if and only if no older lock meets an open window below the limit |
| `LoginAttempts.StoresAgree` | app/accounts/rate_limit.py:53-209 | under fixed settings both stores hold the same record after any history, and a lock is set exactly from the limit on |
| `LoginAttempts.FailuresAreBounded` | app/accounts/rate_limit.py:53-119 | with a lock as long as the window, any stretch one window long lets at most max(N, 2N - 2) failures through |
| `LoginAttempts.BoundIsReached` | app/accounts/rate_limit.py:53-119 | for every limit from two on some attempts reach that bound |
| `LoginAttempts.LockMustCoverWindow` | app/accounts/rate_limit.py:53-119 | the bound holds for all attempts if and only if the lock is at least as long as the window |
| `Tasks.TaskStore.Create` | app/domain.py:123-134 | create or find by idempotency key, conflict on another fingerprint |
| `Tasks.TaskStore.SetPendingApproval` | app/domain.py:168-181 | a queued task of the tenant becomes pending, others are returned unchanged |
| `Tasks.TaskStore.Approve` | app/domain.py:198-207 | only a pending task of the tenant is approved, with one audit entry |
| `Tasks.TaskStore.Delete` | app/domain.py:183-196 | the task and its own index entry go, nothing else |
| `Tasks.PostgresTaskRepository.Insert` | app/repository.py:76-123 | the insert with its conflict read-back, audit row and outbox row, keeping keys unique |
| `Tasks.PostgresTaskRepository.SetPendingApproval` | app/repository.py:171-184 | the update, then the answer of a read by this caller |
| `Tasks.PostgresTaskRepository.Approve` | app/repository.py:45-74 | the update, audit and outbox rows, then the answer of a read by this caller |
| `Tasks.PostgresTaskRepository.Delete` | app/repository.py:186-207 | task, audit and outbox rows of the task go, nothing else |
| `Tasks.TextsDiffer` | app/repository.py:273-279 | dedupe keys of different events or tasks are different texts, whatever the task ids contain |
| `Tasks.WhoSees` | app/domain.py:136-143 | leads and executives see all tasks of their tenant, others their own; dedupe keys are stored as id, action and 1 |
| `Tasks.TenantsAreApart` | app/domain.py:123-207 | operations for one tenant leave every other tenant's tasks and audits as they are |
| `Tasks.WhatChanges` | app/domain.py:168-207 | a task is set to pending only from queued, approved only from pending with one audit entry in the approver's name, deleted by its id, and never changes otherwise |
| `Tasks.MissingIsRefused` | app/domain.py:168-207 | operations on tasks the tenant does not have are refused and change nothing |
| `Tasks.FirstCreationMakes` | app/domain.py:123-134 | the first creation under a key makes the task with its audit entry |
| `Tasks.KeyFindsItsTask` | app/domain.py:123-134 | over any operations that do not delete it, later creations under the key find that task or are refused for another content |
| `Tasks.StepSimulates` | app/domain.py:123-207 | each proper operation is answered the same by both stores and keeps them in step, the index a bijection with the live tasks |
| `Tasks.RunsSimulate` | app/domain.py:123-207 | and so is any run of them |
| `Tasks.CreateThenDelete` | app/domain.py:183-196 | creating and deleting restores both stores exactly, whether the creation made, found or was refused |
| `Tasks.RowsPerTask` | app/repository.py:262-282 | in any run a task has one creation row and, exactly when it was ever approved, one approval row |
| `Tasks.WhatIsEnqueued` | app/repository.py:262-282 | one outbox row at the creation and one at the first approval, each in the name of who did it; rows are never rewritten and go only with their task |
| `Tasks.AnswersNeedView` | app/repository.py:171-184 | setting to pending is answered alike if and only if the caller may see the task; the tasks change alike in any case |
| `Promotion.RunPromotionStore.Claim` | app/runtime/promotions.py:76-83 | the first claim of a run is kept, later ones get the first row back |
| `Promotion.RunPromotionStore.FindForRun` | app/runtime/promotions.py:85-86 | the row of the run, if any |
| `Promotion.RunPromotionStore.Release` | app/runtime/promotions.py:88-89 | the row of the run goes, and the answer says whether there was one |
| `Promotion.PromoteRunToTask` | app/main.py:4431-4478 | one undisturbed request: the existing link, or claim and task, or nothing left behind |
| `Promotion.CourseRuns` | app/main.py:4431-4460 | the steps of an undisturbed request, up to its creation, reach the claim, task and answer of the request's call |
| `Promotion.WhatIsLeft` | app/main.py:4431-4478 | the steps of an undisturbed request for an unclaimed run leave the claim and the task, new or found under the key, or after any failure no claim, and a task only if the error came after it |
| `Promotion.ClaimedRuns` | app/main.py:4431-4460 | a request for a claimed run is answered with the claim, before or at its own claim |
| `Promotion.DeniedRuns` | app/main.py:4431-4445 | a denied request leaves nothing |
| `Promotion.StepHolds` | app/main.py:4431-4478 | every step of any number of interleaved requests keeps claims, owners and stored tasks consistent |
| `PromotionRuns.AtomicRunsMakeOneTask` | app/main.py:4431-4478 | in any run in which no creation raises after storing its task, at most one task is ever made for a run |
| `PromotionRuns.TwoTasksNeedALateError` | app/main.py:4449-4478 | in any run, two tasks for one run need such an error in the creation of one of the two |
| `PromotionRuns.OneTaskIffAtomic` | app/main.py:4431-4478 | all runs whose creations take the given courses make at most one task per run, if and only if the late error is not among the courses |
| `PromotionRuns.ClaimIsLiveIffKeyWasFree` | app/main.py:4431-4491 | in any run the claim of an answered request names a live task if and only if its user's key for the run was free when it created |
| `PromotionRuns.AtomicClaimsAreLive` | app/main.py:4431-4491 | with atomic creation and no other task created under such keys, every answered claim names the live task its request made |
| `Promotion.ClaimsAreHeldOrSettled` | app/main.py:4431-4491 | in any run a claim row belongs to one request, at work or answered; an answered one names a live task if that request made one and else none; a refused request has no row |
| `Promotion.LateErrorConsequences` | app/main.py:4449-4478 | after an error past the stored task, another user gets a second task and the same user a claim that names none |
| `Base64Url.EncodeIsPlain` | app/auth.py:36-37 | the encoded text holds neither padding nor a dot |
| `Base64Url.RoundTrip` | app/auth.py:36-51 | refilling the padding and decoding leniently gives back any bytes |
| `Base64Url.EncodeIsInjective` | app/auth.py:36-37 | different bytes have different texts |
| `Base64Url.AlphabetIs` | app/auth.py:36-51 | exactly the characters of the URL-safe alphabet and the two they replace have values |
| `Base64Url.ForeignIsSkipped` | app/auth.py:46-51 | other ASCII characters do not change what is decoded |
| `Base64Url.PaddingIs` | app/auth.py:46-51 | a last group of two characters needs two pads, of three one, and one alone is refused |
| `Tokens.ExpiryIsAlmostLifetime` | app/auth.py:22-31 | a token expires at its lifetime, less than a second early and never late |
| `Tokens.TokenRoundTrip` | app/auth.py:18-80 | a created token gives back its context at every time before its expiry and is invalid from then on |
| `Tokens.AcceptedIff` | app/auth.py:40-65 | any text is accepted if and only if what follows its first dot is the signature of what precedes it and that is an object with a later expiry and an id |
| `Tokens.WhoIsLetIn` | app/auth.py:68-80 | who is let in is who the fields name, with the full scope when they name none, and a missing field is reported |
| `Tokens.OtherSecretIsRefused` | app/auth.py:46-50 | under another secret it is accepted only if the signatures coincide |
| `Sessions.InMemorySessionRevocationStore.Revoke` | app/sessions.py:37-40 | the entry is set, then expired entries go |
| `Sessions.InMemorySessionRevocationStore.IsRevoked` | app/sessions.py:42-46 | expired entries go, then the entry is compared with a second clock reading |
| `Sessions.InMemorySessionRevocationStore.Purge` | app/sessions.py:48-51 | exactly the entries that have expired go |
| `Sessions.PostgresSessionRevocationStore.Revoke` | app/sessions.py:80-85 | the row is set, then expired rows go |
| `Sessions.PostgresSessionRevocationStore.IsRevoked` | app/sessions.py:87-91 | true exactly for a row that has not expired |
| `Sessions.ExpiryEnds` | app/sessions.py:42-51 | an entry counts and stays until its expiry and no longer |
| `Sessions.WhatIsHeld` | app/sessions.py:37-91 | what each store holds after a use |
| `Sessions.AnswersAre` | app/sessions.py:42-46 | each question gets one answer: whether the id is still held after it and does not expire by the second clock reading; a revocation gets none |
| `Sessions.PurgingIsInvisible` | app/sessions.py:37-91 | for a clock that does not go back every answer is that of a list that is never purged |
| `Sessions.StoresAnswerAlike` | app/sessions.py:37-91 | so both stores answer alike |
| `Sessions.LoggedOutTokenIsRefused` | app/main.py:742-749 | after logout a request is accepted if and only if the token expires between its two clock readings, and never with one |
| `UpdateMetadata.ParseUpdateMetadata` | scripts/desktop_update_drill.py:171-216 | the line loop returns the parse of the specification and its validation |
| `UpdateMetadata.TakeIndented` | scripts/desktop_update_drill.py:184-201 | an indented line opens an item or adds to the current one, else fails |
| `UpdateMetadata.ReadItem` | scripts/desktop_update_drill.py:184-201 | every printed line of an item goes to that item |
| `UpdateMetadata.PrintedScalar` | scripts/desktop_update_drill.py:161-168 | a printed value is read back as it was |
| `UpdateMetadata.PrintedDocumentIsRead` | scripts/desktop_update_drill.py:171-234 | a printed document of any entries and items is read back as its record, and accepted exactly when that is valid |
| `UpdateMetadata.CommentsSayNothing` | scripts/desktop_update_drill.py:176-180 | blank lines and comments anywhere do not change what is read |
| `UpdateMetadata.NoPair` | scripts/desktop_update_drill.py:198-200 | a line without a colon, or with only blanks before its first one, is refused, and no other |
| `UpdateMetadata.IndentedIsRefused` | scripts/desktop_update_drill.py:182-197 | an indented line is refused outside the file list, and inside it before the first item unless it begins one |
| `UpdateMetadata.ValidIs` | scripts/desktop_update_drill.py:218-234 | valid are exactly the records whose version and digest pass, with a path and at least one file, each with a url and a digest that passes |
| `KnowledgeBindings.KnowledgeAccessRegistry.BindRole` | app/knowledge_policy.py:33-40 | an allowed binding replaces the role's scope and logs old and new; a refused one changes nothing |
| `KnowledgeBindings.KnowledgeAccessRegistry.BindAgent` | app/knowledge_policy.py:42-49 | the same for an agent |
| `KnowledgeBindings.KnowledgeAccessRegistry.Resolve` | app/knowledge_policy.py:51-55 | the scope of the agent when one is given, else of the role |
| `KnowledgeBindings.PostgresKnowledgeAccessRegistry.Bind` | app/knowledge_policy.py:140-177 | delete and insert one by one leaves exactly the new rows of the slot and all others |
| `KnowledgeBindings.WhatIsBound` | app/knowledge_policy.py:33-49 | an allowed request binds its slot to the identifiers that are not blank, stripped, logs what was bound before and after and by whom, and leaves all other slots; any other request changes nothing |
| `KnowledgeBindings.LogIsFaithful` | app/knowledge_policy.py:33-55 | for any history consecutive entries of a slot chain, and replaying the log gives what the slot is bound to |
| `KnowledgeBindings.TablesAgree` | app/knowledge_policy.py:140-193 | after the same requests, one after the other, the database has the same log and bindings |
| `BindingRaces.ApartIsSerial` | app/knowledge_policy.py:140-177 | interleaved changes of a slot that commit without overlapping leave the rows and log of their requests in commit order |
| `BindingRaces.RunIsDisjoint` | app/knowledge_policy.py:140-177 | in every interleaving open transactions neither delete the same row nor write the same identifier |
| `BindingRaces.FaithfulIffApart` | app/knowledge_policy.py:140-177 | over any interleaving, log and rows of the slot agree and chain if no two committed changes overlap, and for requests that bind different knowledge bases only then |
| `BindingRaces.OverlapLeavesBoth` | app/knowledge_policy.py:140-177 | two overlapping changes of an empty slot leave both knowledge bases and two log entries that start from nothing |
| `KnowledgeBindings.TenantsAreApart` | app/knowledge_policy.py:33-55 | a tenant's bindings and log are those of its own requests alone |
| `KnowledgeImport.FetchEntries` | scripts/knowledge_import_register.py:182-225 | for any upstream the loop returns all documents up to the first page that ends the list, or fails |
| `KnowledgeImport.EntryIs` | scripts/knowledge_import_register.py:209-214 | a document becomes an entry where it stands, with its title and its id without the blanks around it, and none when the id is blank |
| `KnowledgeImport.RejectedAre` | scripts/knowledge_import_register.py:211-213 | the rejections of a page are exactly the places of its documents with a blank id |
| `KnowledgeImport.PartIffShortTotal` | app/knowledge.py:181-192 | of a fixed list, for any reported totals, a proper part is returned if and only if some page within the limit reports a total, or has none, that the pages so far have reached while the list goes on |
| `KnowledgeImport.MissingTotalImportsOnePage` | app/knowledge.py:187-192 | without a total, of a list longer than one page exactly the first page is imported |
| `KnowledgeImport.AllOrNothing` | scripts/knowledge_import_register.py:182-225 | when every page reports the length of the list, N documents are imported whole and in order if max_pages is at least one and N is at most page size times max_pages, and else the import fails |
| `KnowledgeImport.EveryDocumentIsCounted` | scripts/knowledge_import_register.py:211-218 | every document read becomes an entry or a rejection |

## Left out

- Event stream: the expiry and purging of streams, and the timestamps of state rows. A cursor belongs to one run; a connection without one is followed to the run it finds.
- Event stream: the write gateway's audit entries.
- `StreamCursor.PresentedNumberIsResumed`: digits are ASCII digits; other Unicode digits that Python also accepts are not modelled, here and in `UpdateMetadata`.
- Tenant schema: which statements are kept is any predicate on the rewritten dump; the classifying patterns, the discovery of owned sequences, the deployment's replacement of the platform placeholder and newline translation of files are not modelled.
- Event delivery: Redis consumer groups, acknowledgements and claiming are one step that delivers any stream entry at any time, so the results cover every delivery order and repetition; JSON encoding of events is not modelled.
- Event delivery: handlers do not call the consumer again, and the dead-letter callback does not raise.
- Event delivery: the dead-letter store commits on its own connection, as with a pool; sharing the publisher's connection, where a record would be rolled back with the batch, and a publisher without a dead-letter store are not modelled.
- Event delivery: event ids equal dedupe keys and the id of a deleted task is not used again, as the one place that writes rows has it; ids are compared by character code instead of by the database's collation.
- Event delivery: a failing write of an audit entry.
- `Consumer.ConsumerOutcome`: covers one process lifetime, since the consumer's memory is its own.
- Dead letters: listing, and the recording and replay times beyond their presence.
- `LoginAttempts.FailuresAreBounded`: attempts of one phone are checked and registered one after the other; attempts that pass the check together before either is registered are not covered. Phone hashes are any function.
- `Tasks.RunsSimulate`: tasks are values, so a caller changing a returned task object in place is not captured; money, risk and listing are not modelled, and the audit list of a task found by its idempotency key is not compared.
- `Promotion.PromoteRunToTask`: permission, acceptance and terminal-state checks before the claim only refuse and are one step; other requests do not delete promoted tasks, and a process does not stop inside a request.
- `Tokens.TokenRoundTrip`: JSON and HMAC are functions with the laws stated in `Libraries.Lawful`; times are whole microseconds and are not rounded through floating point.
- `UpdateMetadata.PrintedDocumentIsRead`: a text of digits, quoted or not, is read as a number, so such texts are not printable; the semantic-version pattern and the digest length check are parameters.
- `KnowledgeBindings.LogIsFaithful`: identifier lists are sets, so their sorted order is not stated; the directory's key rule is a parameter.
- `BindingRaces.FaithfulIffApart`: the database's default isolation level, read committed, is modelled by the visibility and waiting rules of its statements; deadlocks are aborts at any point. Changes of other slots touch neither the rows nor the log of this one.
- `Tasks.PostgresTaskRepository.Delete`: its statements are one step, as are those of the other repository methods; transactions that overlap on one task are not modelled.
- `KnowledgeImport.AllOrNothing`: registering the imported documents, tenant checks and the upstream protocol are not modelled.
- HTTP routing, settings, connection pools, TOTP, scheduling, packaging scripts and the front end: plumbing without an invariant of its own.
- CRM, memory, skills, evolution and approval aggregation: small state machines that would only add easy members.
