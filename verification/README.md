# Stratagema: a verified model of its locks, notifications and file formats

Stratagema lets agents claim named resources, hear of what others do with them, and
keep small text records. This project models that logic in Dafny and proves what it
guarantees. `dafny verify dfyconfig.toml` checks all of it.

## How it is modelled

- **Interleaved calls** (`Protocol.dfy`). The store is a set of tables that every process reaches
  through SQL. Each statement, and each reading of the clock, is one atomic step of one call. A
  call keeps only its arguments, the time it has sampled, the row it has read and where it
  stands. Any number of calls, by any identities, take their steps in any order; a call
  that takes no more steps has crashed. A run is a sequence of states joined by such steps.
- **Whole calls** (`Calls.dfy`, `Store.dfy`). `Store` is the object with its tables as fields; its
  methods are the source's, loops included, and each is proved against a function on tables.
  `Alone.dfy` proves that a call whose steps nobody interleaves with does and returns exactly that,
  and `History.dfy` that every chronological history of whole calls is a run.
- **Parsers and printers** (`Tactic.dfy`, `Usage.dfy`) are functions on strings with the source's loops
  as methods beside them. `TacticGrammar.dfy` and `NoteGrammar.dfy` say without the readers which texts they accept,
  what each text says, and why any other is refused.
- **Answers.** `Outcomes.dfy` tells field by field what each whole call answers and leaves; `Reasons.dfy` what each
  answer and each logged event of an interleaved call means of the rows that the call met on its way.

What is proved about the lock: an inductive invariant of all runs (`Invariant.dfy`); who may become
holder and for how long (`Exclusion.dfy`); that the log accounts for every hold (`Conservation.dfy`), and when
it tells the holder and a release names the one it removed (`LogOrder.dfy`);
that the interleaved calls refine a service with a clock, whose calls are single instants (`Atomic.dfy`); that
retries are paid for by other calls' writes (`Contention.dfy`), and that every call ends within a bounded number of
its own steps (`Ending.dfy`). About notifications: where each one
comes from in any run (`Delivery.dfy`), exactly who is told of what in a history (`History.dfy`) and how often when
calls interleave (`Telling.dfy`), that
a cursor sees each one once (`Cursor.dfy`), and when a pair of identity and resource has more than one active
interest (`Interests.dfy`).

Some statements would be natural and are false of the code. For each, `Anomalies.dfy` builds a run that breaks it, for
arbitrary resources and identities, and another theorem says exactly when it does hold:

| would be natural | breaks in `Anomalies` | holds exactly when |
|---|---|---|
| who is told of a hold has it | StaleReacquireGivesTwoHolders | the re-acquiring UPDATE, which names only the resource (`lock.go:314`), meets its caller's row: `Atomic.ReportedHoldIsHeld`; and then no two are told of holds that overlap: `Atomic.HoldsAreApart` |
| a renewal that succeeds leaves a running lease | StalledRenewalSucceedsLate | it has stalled for less than the lease: `Exclusion.RenewalLeaves`, `Exclusion.RenewalIsInTime` |
| a renewal never shortens a lease | RenewalMovesLeaseBack | it sampled the time no earlier than the stamp it finds: `Exclusion.RenewalLeaves` |
| the log tells who holds | InterleavedLogMisleads | no change of holder overtakes the logging of an earlier one: `LogOrder.OrderlyLogTells`, `LogOrder.OvertakingIsUnsafe`; at any moment: `LogOrder.SafelyLoggedIff` |
| a release names the hold it ends | ForcedReleaseNamesFormerHolder | it is not forced, or the holder is still the one it read: `LogOrder.ReleaseNamesHolder` |
| a release is marked forced if it ends another's hold | TakenByForceLooksOrdinary | the same lemma, second part |
| a notification shows the event that caused it | ReleaseDeliveredAsAcquire | no later event is on the resource: `Delivery.AttachesOwnEvent` |
| of each event an interest is told once | InterleavedDenialsToldAsOne | once for each call that chose the event: `Telling.ToldOncePerCall`; at most once if every call chooses its own: `Telling.ToldAtMostOnce` |
| creating keeps one active interest | ConcurrentCreatesBothInsert | the pair has none at the insert: `Interests.InsertDoubles`, and along runs `Interests.OneActiveAlong` |
| a pair has one active interest | ResumeMakesTwoActive | no step inserts or wakes one beside another: `Interests.StepDoubles` |

Where the code and its comments disagree the code is followed:

- `lock.go:245-256` says that claims are race-free. The insert and the reclaim are; the re-acquire is not.
- `lock.go:66-82` says that the staleness test has no ceiling for any real lease and computes the same as the SQL side.
  It does up to 9223372036854775 seconds; beyond, the product wraps (`Tables.ExpiryTestsAgree`).
- `interest.go:163-166` names denials and releases as what propagates. Reclaims propagate too.
- `strategy.go:862-865` announces a recap that is the whole log as having no completed step, which is also printed
  when the very first event is a completed step; and any other as going back to the last completed step, which is
  also printed of the last ten events when none of them is one (`Strategy.LabelIsTrue`).
- `lock.go:186-190` gives each event the strategy of its hold. A re-acquire changes that strategy and logs nothing, so
  the log tells the strategy that a hold began with (`History.LogReplaysToStrategies`).

Choices where the source leaves room: identifiers are positions in their table, as fresh values; a query
without an ORDER BY gives rows in table order; `lease_seconds * 1000` in SQL is the unbounded product; timestamps
are non-negative 64-bit milliseconds from one clock that never goes back. The library's printing and reading of
floating-point costs are parameters, and a cost is its bit pattern. Strings are sequences of code points, and white
space is the set that Go's `unicode.IsSpace` accepts.

## Model

| member | source | states |
|---|---|---|
| Tables.Wrap64 | lock.go:83 | 64-bit wrap-around: congruent modulo 2^64 and the identity in range |
| Tables.ExpiryTestsAgree | lock.go:64-84 | the Go expiry test and the reclaim condition decide alike exactly when the lease is at most 9223372036854775 or has run less than its wrapped product; renew and reclaim conditions are complements |
| Tables.ReclaimableReadsExpired | lock.go:323-332 | whatever the UPDATE would take reads as expired first, for every lease |
| Tables.FreshLeaseReadsExpired | lock.go:83 | one second past the longest lease, a lease stamped this very moment reads as expired though no UPDATE may take it |
| Tables.LastEvent | interest.go:182-184 | the event chosen is on the resource and no later one is; none only if there is none |
| Tables.ActiveOn | interest.go:107-125 | exactly the active interests of the resource, each once, in order, with its owner |
| Tables.FirstActive | interest.go:65-76 | an active interest of the identity on the resource, or none only if there is none |
| Invariant.InvNext | lock.go:257-343 | every step of every call keeps the invariant: sampled times lie in the past, snapshots justify the branch taken, rows have both lease columns or neither, propagations join existing rows of one resource |
| Invariant.InvAlong | lock.go:257-534 | the invariant holds along every run, events are only appended and interests keep owner and resource |
| Exclusion.HolderChangesLegally | lock.go:257-534 | in any reachable state a step makes a free resource held exactly by an insert, passes it on exactly by a reclaim of a lease stale at a past sampled time, and frees it exactly by the holder's or a forced delete |
| Exclusion.LeaseHolds | lock.go:393-400 | over any stretch of a run without a write by the holder, a forced delete or a re-acquiring UPDATE, the whole row stays as it is while its lease runs by the real clock |
| Exclusion.HeartbeatsKeepHold | lock.go:416-476 | over any stretch of a run in which the lease, as it stands at each moment, runs by the real clock and nobody deletes the row by ownership or force, the holder stays the same, through renewals and re-acquires alike |
| Exclusion.RenewalLeaves | lock.go:444-459 | every successful renewal keeps the holder and the length of the lease; the lease it leaves runs by the clock if and only if less than its length has gone by since the time was sampled, and ends sooner than before if and only if the stamp it replaces is later than the sample |
| Exclusion.RenewalIsInTime | lock.go:444-465 | in every run, a renewal that samples the time at one step and succeeds at a later one leaves a running lease if and only if less than the lease lies between the two |
| Exclusion.HoldingIsGained | lock.go:257-343 | whoever holds a resource after a moment of not holding it gained it in between by a claim or a reclaim |
| Exclusion.ReclaimsAlternate | lock.go:377-386 | between two reclaims from one identity that identity gained the resource anew |
| Conservation.StepOwes | lock.go:291-304 | a hold appears exactly when a call comes to owe its acquired event, and ends exactly when one comes to owe a released event |
| Conservation.HoldsAreAccounted | lock.go:505-530 | in every state of every run: acquired events plus grants not yet logged equal released events plus releases not yet logged, plus one if the resource is held |
| LogOrder.StepComesToOwe | lock.go:291-304 | a call comes to owe an event exactly by the step that changes the holder, the event will tell the new holder, and logging it leaves the locks alone |
| LogOrder.StepTells | lock.go:191-205 | what the log says of the holder changes exactly by the steps that log an owed event, and then to what that event tells |
| LogOrder.OrderlyLogTells | lock.go:505-530 | in every run in which no change of holder is made while an earlier one is still to be logged, the log at every moment tells the holder, up to the one event that may be owed; crashed calls included |
| LogOrder.SafelyLoggedIff | lock.go:505-530 | in any state, the log comes out right in whatever order the owed events are logged if and only if each of them tells the present holder, or none is owed and the log tells it already |
| LogOrder.OvertakingIsUnsafe | lock.go:505-530 | while the log is in order, a change of holder leaves it bound to come out right if and only if it overtakes no event |
| LogOrder.ReleaseNamesHolder | lock.go:505-530 | the event of a release names the holder removed if and only if it is not forced or the holder is still the one read, and its forced mark is right if and only if it is not forced or holder read and holder removed are alike in being the caller |
| LogOrder.LoggedReleaseNamesHolder | lock.go:505-530 | the same along runs, between the deleting step and the event then logged |
| Atomic.StepDecides | lock.go:257-534 | a step that decides a call performs the whole call in one instant on the row and touches no other; any other step leaves the locks alone |
| Atomic.RefreshDecides | lock.go:313-321 | a re-acquiring UPDATE is one instant of re-acquiring if and only if the row is still its caller's |
| Atomic.CallsTakeEffectAtOnce | lock.go:257-534 | every decided call has a step within its own time at which the one-instant call, by the time it sampled in between, yields its verdict and the row that results, and the row it reports is that row if and only if its snapshot was current then; provided its own re-acquire is sound and its renewal's lease is in range, up to that moment |
| Atomic.StepReports | lock.go:291-342 | the deciding step settles the row reported: always the row left for a claim or reclaim, for a re-acquire if and only if the beginning of the hold is as it was read, for a renewal if and only if everything but the stamp is |
| Atomic.ReportedHoldIsHeld | lock.go:291-342 | an acquire that is told of a hold is the holder at the step that decides it if and only if that step is not a re-acquiring UPDATE that has met another's row or none |
| Atomic.HoldsAreApart | lock.go:245-256 | in any run, if two identities are told of a hold one after the other, each soundly, the first hold has ended by then: by its own or a forced release, or by a reclaim of a lease run out by the clock |
| Atomic.VerdictsStand | lock.go:257-534 | a verdict once taken, and the row it reports, never change in the rest of the run |
| Atomic.StepRefinesService | lock.go:257-534 | a step is a step of a lock service that has a clock, whose calls read it once and then decide by that reading in one instant, or is none, if and only if it is not an unsound re-acquire; a renewal may also be refused because the row it looked at reads as expired by the clock |
| Atomic.RunRefinesService | lock.go:257-534 | a whole run from the empty store is a run of that service if and only if every re-acquire in it is sound |
| Atomic.ServiceIsExclusive | lock.go:377-386 | at every step of every run of the service, a lock passes to another identity only by its acquire, when the lease has run out by the time it has read and by the clock, and becomes free only by a release of its holder or a forced one |
| Contention.RetriesArePaidFor | lock.go:285-343 | with leases in range, an acquire at its n-th retry has seen n writes of other calls to its row since it began, and the contention error at least three |
| Contention.QuietAcquireNeverRetries | lock.go:285-343 | an acquire during which no other call writes the row never retries and never ends in the contention error |
| Ending.StepDescends | lock.go:285-343 | each own step of a call that has not ended lowers its rank, whatever the store has become since the last |
| Ending.EveryCallEnds | lock.go:285-343 | in every run, a call that has taken fourteen own steps and one for each interest there is has ended |
| Delivery.StepInserts | interest.go:187-198 | each inserted propagation shows an event not older than the one its call recorded, on the same resource |
| Delivery.PropagationsAreCaused | interest.go:167-200 | in every run each propagation joins an existing interest of its identity with an existing event of that resource, and was inserted for a denial, release or reclaim logged as that event or an earlier one |
| Delivery.AttachesOwnEvent | interest.go:181-185 | the event attached is the caller's own if and only if no later event is on the resource |
| Telling.EachSubscriberToldOnce | interest.go:167-200 | in every run, a call that has ended denied, released or reclaimed has inserted exactly one propagation for each interest active when it looked, in order and all of one event, the newest on the resource when it chose and not older than its own; a call that ended otherwise has inserted none |
| Telling.ToldOncePerCall | interest.go:181-198 | in every state of every run, an interest has been told of an event exactly as often as there are calls that have told it, each of which logged its own event no later and then chose this one |
| Telling.ToldAtMostOnce | interest.go:181-185 | while every call chooses its own event, no interest is told twice of an event |
| Calls.LoneContention | lock.go:323-342 | a lone acquire ends in the contention error if and only if the lock is another's under a lease over 9223372036854775 seconds that has run past its wrapped product |
| Calls.AcquireMeansHolding | lock.go:207-256 | a lone acquire reports a hold if and only if its caller ends up the holder, with the row it reports and a fresh lease; a hold of one's own keeps its beginning, another's passes on if and only if it is stale |
| Outcomes.AcquireRefusals | lock.go:18-23 | an acquire is refused for a line end in the name, else for a negative lease, else for an unknown strategy, and for nothing else, and then changes nothing |
| Outcomes.AcquireOutcome | lock.go:291-342 | a lone acquire is granted exactly on a free resource, re-acquires exactly the caller's, reclaims exactly another's whose lease has run out, and is otherwise denied in the holder's name or, beyond 64 bits, given up; the row it reports and leaves has the holder, note, strategy, lease and times asked for, and no other row moves |
| Outcomes.LeaseLasts | lock.go:349-354 | after any hold given, another's acquire takes over if and only if the lease asked for has run its length, and is denied otherwise; the holder's renewal succeeds if and only if there is a lease and it has not; its release always does |
| Outcomes.RenewOutcome | lock.go:430-476 | each failure of a lone renewal with its reason, and else the same row restamped |
| Outcomes.ReleaseOutcome | lock.go:484-534 | a lone release frees the resource for its holder or by force, and else says that it is not locked or who holds it, changing nothing |
| Outcomes.EventIsOwn | lock.go:186-205 | a lone call logs an event exactly if it is granted, denied, reclaims or releases, of that kind and with its own resource, identity and note |
| Outcomes.AcknowledgeOutcome | interest.go:202-217 | acknowledging marks that propagation and leaves all else alone, and fails exactly if there is none |
| Outcomes.StatusOutcome | interest.go:78-88 | a status change sets that interest's status and leaves all else alone, and fails exactly if there is none |
| Outcomes.SubscribeOutcome | interest.go:30-61 | a creation is refused exactly for a line end in the name, gives back an active interest of the pair if there is one, and else appends one with what was asked |
| Reasons.AnswersMean | lock.go:257-534 | in every run, every answer is what the rows met by the call demand: for renewals and releases a full table, so that each reason of failure has its one meaning, a forced release of a lock freed meanwhile succeeds, and a lost one names the holder then; for acquires the row met and the row left, field by field |
| Reasons.FirstReadDecides | lock.go:430-496 | in every run, a renewal or release ends as not locked, as held by another or as without lease if and only if the row it first reads is none, another's or without lease |
| Reasons.EventsMean | lock.go:186-205 | in every run, every event was logged by a call with that resource, identity and note, and its kind, holder, strategy and forced mark are those of the rows that this call read and wrote |
| Reasons.GivenAsAsked | lock.go:349-354 | every step of a run that soundly gives a hold leaves the holder, note, strategy, lease and times asked for, and a row that may be reclaimed exactly once the lease asked for has run |
| Reasons.MarksStay | interest.go:202-217 | in every run a propagation is acknowledged exactly from the first acknowledgement of it on |
| Alone.RunsAlone | lock.go:257-343 | the interleaved steps of a call that is alone run to their end with the store and the result of the whole call |
| StoreObject.Store.MatchAndPropagate | interest.go:167-200 | appends one propagation of the newest event for each active interest and changes nothing else |
| StoreObject.Store.AcquireLock | lock.go:257-343 | the bounded loop leaves the store and returns the result of the whole acquire |
| StoreObject.Store.ReclaimExpiredLock | lock.go:393-414 | takes the row over exactly if it is still the prior holder's and stale, then logs and notifies; otherwise changes nothing |
| StoreObject.Store.RenewLock | lock.go:430-476 | leaves the store and returns the result of the whole renewal |
| StoreObject.Store.ReleaseLock | lock.go:484-534 | leaves the store and returns the result of the whole release |
| StoreObject.Store.AcknowledgePropagation | interest.go:202-217 | marks one propagation, idempotently, or reports that there is none |
| StoreObject.Store.RecentPropagations | interest.go:276-300 | the first rows behind the cursor up to the limit, none for a negative one, and the cursor on the last of them |
| StoreObject.Stream.Tick | serve.go:62-82 | sends the next page in order and moves the stream's cursor to its end |
| StoreObject.Stream.Serve | serve.go:49-82 | n ticks of a new stream with nothing written in between send the first fifty times n deliveries, and all of them exactly if there are no more |
| History.CallLogsItsEffect | lock.go:186-205 | a whole call logs at most one event, which tells the holder and force that the holders before it give and the strategy of its hold, and turns those holders into the ones after it; a call that logs none changes no holder |
| History.LogReplaysToHolders | lock.go:100-123 | after any history the log replays to exactly the holders of the locks, and each event tells what the replay before it says |
| History.LogReplaysToStrategies | lock.go:186-190 | after any history the log tells a strategy for exactly the resources held, and it is the stored one if and only if the holder has not re-acquired since the hold began or has last done so with that strategy |
| History.NotifiesExactly | interest.go:163-200 | a whole call notifies exactly for the denial, release or reclaim it logs, of that very event, each interest then active on the resource |
| History.ToldOfEachEventOnce | interest.go:163-200 | at any moment of any history each interest has been told exactly once of each denial, release and reclaim on its resource while it was active, and of nothing else |
| History.ActivesAfterCall | interest.go:30-88 | creating gives back an active interest and leaves the pair with one if it had none, else with those it had; a status change adds one exactly when it wakes a paused one; nothing else adds any |
| History.OneActiveInterest | interest.go:35-47 | in every history without resuming, a pair never has two active interests |
| Interests.CreatingAgainChangesNothing | interest.go:35-47 | repeating a creation with any label returns the same interest and changes nothing; a creation returns an active interest of the caller on the resource, and adds one if and only if there was none |
| Interests.StepActives | interest.go:30-88 | in any interleaving a step adds an active interest to a pair exactly by inserting or waking one, and takes one away exactly by pausing it |
| Interests.PendingMeansNone | interest.go:41-47 | a creation goes on to its insert only from a moment at which the pair has no active interest |
| Interests.InsertDoubles | interest.go:41-59 | the insert leaves more than one active interest if and only if there is one by then |
| Interests.StepDoubles | interest.go:30-88 | a step raises a pair beyond one active interest if and only if it has one already and the step inserts or wakes another |
| Interests.OneActiveAlong | interest.go:35-59 | in every run in which nothing paused is woken and no two creations of the pair stand between look and insert at once, the pair never has more than one active interest |
| Interests.TwoPendingBothInsert | interest.go:41-59 | two creations that stand there at once leave the pair with two active interests more, whatever it had |
| History.HistoriesAreRuns | lock.go:257-534 | every chronological history of whole calls is a run of the interleaved store made of its entries one after another: each call invoked with its arguments at its time, run to its end uninterrupted, with the store and the result of the whole call |
| Anomalies.StaleReacquireGivesTwoHolders | lock.go:313-320 | a run with a step at which one identity's re-acquiring UPDATE meets the row of another, which has been told of that hold under a running lease with nothing released; the first is told of a hold too, and the row stays the other's and loses its lease |
| Anomalies.StalledRenewalSucceedsLate | lock.go:444-459 | a run with a step at which a renewal succeeds on a lease that has run out by the clock, and leaves it run out |
| Anomalies.RenewalMovesLeaseBack | lock.go:444-459 | a run with a step at which a renewal succeeds and sets the stamp of the lease back |
| Anomalies.InterleavedLogMisleads | lock.go:505-530 | a run all of whose calls have ended, with three events in the log that say a held resource is free |
| Anomalies.ReleaseDeliveredAsAcquire | interest.go:181-185 | a run in which the release of one identity is logged and then delivered, to its only subscriber, as the acquire of another |
| Anomalies.InterleavedDenialsToldAsOne | interest.go:181-185 | a run of two denials, both logged, after which their one subscriber has been told twice of the second and never of the first |
| Anomalies.ForcedReleaseNamesFormerHolder | lock.go:505-530 | a run with a step at which a forced release removes one identity's hold, and its event names another |
| Anomalies.TakenByForceLooksOrdinary | lock.go:530 | such a run in which the caller takes another's hold by force and the event says an unforced release of its own |
| Anomalies.ConcurrentCreatesBothInsert | interest.go:41-59 | a run in which two interleaved creations leave a pair with two active interests |
| Anomalies.ResumeMakesTwoActive | interest.go:78-88 | creating, pausing, creating and resuming leaves a pair with two active interests |
| Cursor.RowsAscend | interest.go:280-281 | the rows behind a cursor have strictly rising rowids above it |
| Cursor.PageMeans | interest.go:219-300 | a delivery is on a page if and only if it is of the identity, behind the cursor, with fewer than the limit before it, and every part of it is that of its propagation or of the event shown; rowids rise |
| Cursor.PageFillsGap | interest.go:280-299 | a page of any limit is every delivery between the old cursor and the new one |
| Cursor.RowsKept | interest.go:280-281 | what was deliverable up to a rowid stays so, word for word, however the store is extended |
| Cursor.RunPollsGrow | serve.go:55-63 | polls made as any run goes on see a store that is only extended |
| Cursor.EachDeliveryOnce | serve.go:49-82 | whatever is written between polls and whatever their limits, the pages together are every delivery of the identity up to the cursor, once each and in order |
| Cursor.PollsDrain | serve.go:62-82 | with nothing more written, m polls send the first m pages' worth of all deliveries, and so every delivery, once and in order, if and only if m pages can hold them |
| Cursor.JoinKeepsAll | interest.go:280-281 | the join with the events drops no propagation of the identity |
| TacticFile.ParseToolsList | tactic.go:176-194 | the loop returns what the list grammar gives |
| TacticFile.ParsesTools | tactic.go:176-194 | a rendered list of trimmed, non-empty tools without commas or line ends parses to those tools |
| TacticFile.ParseTactic | tactic.go:93-167 | the scanning loops return what the format gives, errors included |
| TacticFile.RenderTactic | tactic.go:213-224 | the builder writes the rendered form |
| TacticFile.RenderedText | tactic.go:213-224 | the rendered text, letter by letter |
| TacticGrammar.ParseMeans | tactic.go:93-167 | a text is read as a tactic if and only if its lines say that tactic: delimiters, no line without a colon, sound tool lists, and for each field the value of the last line with its key |
| TacticGrammar.ParseFailsFor | tactic.go:93-167 | any text is refused for a reason if and only if its lines give that reason: a missing delimiter, the first line that is wrong, or the first field that is missing |
| TacticGrammar.NothingChanges | tactic.go:140-149 | a blank line, or a line with any other key, put anywhere between the delimiters changes nothing that is read, errors included |
| TacticGrammar.ToolsRead | tactic.go:176-194 | which lists of tools are read, as what, and why others are not |
| Text.NormalizeMeans | tactic.go:94-97 | normalizing puts a line feed for each `\r\n` and keeps what is between |
| TacticFile.ParsedIsWritable | tactic.go:93-167 | whatever is accepted has one-line trimmed non-empty values, at least one tool, sound tools and a trimmed body |
| TacticFile.RenderParses | tactic.go:93-224 | with such a header, reading back what was rendered changes only the body, to its normalized and trimmed form |
| TacticFile.RoundTrip | tactic.go:211-224 | parsing inverts rendering if and only if the header is such, and the body is trimmed and free of `\r\n` |
| TacticFile.NormalForm | tactic.go:93-224 | an accepted text reads the same after rendering if and only if its body keeps no `\r\n` |
| TacticFile.NormalizedOnceIsEnough | tactic.go:94-97 | which is so whenever normalizing leaves no `\r\n` in the text |
| TacticFile.DoubledReturnIsNotStable | tactic.go:96 | a body with `\r\r\n` is accepted and does not survive |
| Usage.ParsesPrinted | strategy.go:371 | a printed 64-bit integer reads back as itself |
| Usage.ParsedIsNoteable | strategy.go:359-395 | an accepted note has a one-word harness, non-negative tokens and a cost that its text tells |
| Usage.NoteRoundTrip | strategy.go:329-342 | a usage comes back from its note if and only if it is of that kind, `=` in the harness included |
| Usage.NoteNormalForm | strategy.go:353-395 | writing an accepted note anew changes nothing that is read from it |
| Usage.ParseResourceUsageNote | strategy.go:359-395 | the loop returns what the note format gives, errors included |
| NoteGrammar.NoteMeans | strategy.go:359-395 | a note is read as a usage if and only if its words say it: each a known key with a sound value, and each part what its last word says |
| NoteGrammar.NoteFailsFor | strategy.go:359-395 | any note is refused for a reason if and only if its words give it: the first word that is wrong, or the first part that is missing |
| NoteGrammar.WordsMean | strategy.go:362 | the words of a note are what stands between its white space |
| NoteGrammar.ParseIntMeans | strategy.go:371 | what is read as a number is its decimal digits with leading zeros and a sign allowed, if it fits 64 bits |
| NoteGrammar.WrittenNote | strategy.go:336-342 | the written note, letter by letter |
| Strategy.FirstUsesAre | strategy.go:710-715 | the harness list holds exactly the harnesses used, each once |
| Strategy.FirstUsesInOrder | strategy.go:710-715 | a harness is listed before another only if its first use is earlier |
| Strategy.UsagesAre | strategy.go:694-709 | the usages counted are those of exactly the usage events with a note that can be read, one each, in the order of the log |
| Strategy.TokensAdd | strategy.go:716 | totals add up from single usages, each counted for its harness alone |
| Strategy.CostsAre | strategy.go:717-720 | the costs of a harness are those of its usages that have one, in order |
| Strategy.TotalsPartition | strategy.go:694-721 | the totals over the listed harnesses add up to the total of all parseable usages |
| Strategy.ShownTotalIsTrue | strategy.go:716 | a total kept in 64 bits is the true sum if and only if the true sum fits |
| Strategy.UsagesNotNegative | strategy.go:704-709 | every usage counted has non-negative tokens |
| Strategy.UsageTotals | strategy.go:694-721 | the loop's map, order and skipped events are the totals, the first uses and the unreadable usage events |
| Strategy.RecentStrategyEvents | strategy.go:310-327 | the recap is the end of the log, at most ten events, back to the last completed step or else to the beginning |
| Strategy.RecapIsLast | strategy.go:310-327 | the last ten events, or all since the last completed step if those are fewer |
| Strategy.StartIsUnique | strategy.go:315-321 | there is only one such place to start from |
| Strategy.RecapShape | strategy.go:862-865 | only the first event of a recap can be a completed step; the recap is the whole log if and only if there are at most ten events and none after the first is a completed step |
| Strategy.LabelIsTrue | strategy.go:862-865 | the announcement of a full log without completed steps is true if and only if the log does not begin with one, and the other if and only if one of the last ten events is one |
| Strategy.LabelsMislead | strategy.go:862-865 | a log for each announcement of which it is printed and false |

## Left out

- The SQLite engine, busy retries, disk failures and schema migration: each statement is atomic, applied once, and rows keep insertion order.
- Identity tokens, hashing and random identifiers: library cryptography; identifiers are fresh positions here.
- Command-line flags, exit codes, printing, column layout and `escapeForSingleLineDisplay`: display only.
- HTTP transport, heartbeats and JSON encoding of the stream: only its cursor loop is modelled, and an event that cannot be encoded is not considered.
- Event and propagation timestamps, and the inbox listing that sorts by them: no decision of the store depends on them.
- `SetStrategyStatus`, `CloseStrategy`, `LogStrategyEvent` and the strategy table: single writes behind existence checks, which would only add easy members.
- Adding up floating-point costs: each harness's costs are kept as a list in order, which is what the addition runs over.
- Invalid UTF-8 in tactic files: text is code points, not bytes.
- Reading, creating and listing tactic files, and checks of their paths: file access.
- Atomic.CallsTakeEffectAtOnce: says nothing of acquires refused for their arguments or ending in the contention error, which decide nothing about the lock.
