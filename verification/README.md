# A verified model of arko's stateful core

arko is a Matrix chat client that keeps its state on the server side of a local web page. This
project models the parts of it whose correctness depends on state, order and concurrency, and
proves what they keep.

**The room timeline.** A `MessageTree` holds one room's messages in a set ordered by instant and
identifier, with an index by identifier, a table of what nonces replace and a store of events that
could not be decrypted. Local sends, sync events, history pages, embeds, redactions and decryption
retries change it, each as a short program of critical sections. `SortedTree` gives the B-tree as a
strictly ascending sequence, `Timeline` the sections (`Action`), `Runs` the programs (`Step`) and the
invariant of completed steps, `RoomTimeline` the object whose methods do all this in place.
`Schedule` and `Pages` show that the goroutines of a history page may run in any order, `Interleaved`
what holds between any two sections when everything runs at once. `Mirror` and `MirroredSteps` follow the browser's list of messages, patched event by event, and say exactly when
it is the list a full render would show. `Lifecycle` and `Retries` are about single entries: echoes,
redactions and what undoes them, retries; `Sync` says field by field what sync events, redactions and
retries leave. `Render` is the grouping of consecutive messages,
`Pagination` the loading of history, `History` what all loaded pages together leave in the tree.

**The cache.** `CacheFlight` is the stale-while-revalidate cache over a singleflight group as a
protocol of concurrent calls; `Verified` is the flag and cache in front of the device trust check, one
question after the other, and `VerifiedCalls` the same with calls that overlap.

**Smaller stores.** `SessionStore` (write-through session cache over the keyring, known users),
`KeyBackup` (restoring and backing up Megolm sessions), `Typing` (typing notifications),
`TokenRefresh` (the refresh loop and its 64-bit arithmetic), `Hub` (websocket clients and their
bounded queues). `Pipeline` joins timeline, mirror and hub: what a connected client ends up showing.

## What the model assumes

- A section under a mutex, and one access to a concurrent map, is one atomic step. Goroutines
  interleave at these steps.
- An event ID determines its timestamp (`Clock`), hash classes of event IDs do not collide and are
  never nonces, and the nonces of a page are fresh. Where a hypothesis matters to a single call, a
  lemma says exactly what happens without it (`SetAgreesIff`, `ActIsMirroredIff`).
- Exporting a Megolm session and importing the result are inverse, and only the right key opens an
  encrypted backup entry (`KeyBackup`): this is assumed of the library, not proved.
- What decryption, profiles, trust checks, the homeserver and the keyring answer are parameters.
  Instants are integers (nanoseconds). A profile is reduced to the author's identifier.
- A decryption counts as one instant, the one at which it ends.
- Strings compare character by character, as Go compares them for the ASCII identifiers in use.
- Events reach the callback in the order in which their sections ran. For `DeleteMessage` and for
  embeds the code sends the event after it has released the lock.
- An out-of-band swap whose target is missing does nothing, one with several targets acts on each.

## Where the code falls short, exactly

These are results of the model: in each case the code is modelled as it is, and the lemma gives the
exact condition.

- A nonce replacement that crosses another message is shown in the old place
  (`CrossingEchoIsMisplaced`); one whose target is already present leaves an element too many
  (`RepeatedEchoIsDoubled`); embeds written back between the two halves of a redaction hide the
  message for good (`EmbedInRedaction`). `ActIsMirroredIff`, `EchoFitsIff`, `PageIsMirroredIff` and
  `ActPermutesIff` give the conditions.
- Embeds that were looked up for an undecryptable entry and are written back after a retry has
  succeeded leave the entry undecryptable for good (`StrayEmbedSticks`, `StepKeepsRawIff`): the embed
  cache answers by message identifier, so they may be those of the decrypted text.
- A retried event that decrypts to a message which is redacted inside ends the process: the reason is
  read from the stored event, which has none (`RetryPanicsIff`, `RoundSettles`, reached from the empty
  timeline in `RetryPanicReached`). Whether decryption can yield a redaction that the stored event
  lacks is up to the library; the code provides for it.
- The placeholder of an encrypted event stays forever if the event decrypts to something other than a
  message, or to a message that is redacted inside (`PageSettles`).
- Redacting a message that could not be decrypted keeps its undecryptable flag, so a later retry puts
  the content back (`RetryAfterRedaction`); a stale embed or a repeated message does so too
  (`RedactionHoldsIff`).
- An embed written back is announced without neighbours and loses its grouping
  (`WriteBackIsGroupedIff`, `EmbedLosesGroup`).
- A caller of the cache that looked before an entry was stored can join a later refresh, whose result
  is nothing, and panics in the cast (`LateCallerPanics`, `CastFailsIff`).
- The verification cache can hold false: the check reports a missing device as false without an error
  (`FalseIsCachedIff`).
- After a finished verification later calls can still be answered by a check that began before it,
  when the cache has a verdict or a check of the cache is under way at that moment (`FreshIff`), and
  with a verdict that no later check has found (`ConfirmedIff`, `OverlapIsStale`).
- A failed keyring write leaves the edited session in the cache (`FailedWriteIff`), and an edit that
  changes the user leaves the old user's entry stale (`UserMustStayIff`).
- A backup entry that claims a smaller index than it has, or stands under another identifier than its
  session's, can replace a better session and is imported again (`TurnNeverWorseIff`,
  `HarmlessRestoreIff`, `RestoredAgainIff`); with such entries the result can depend on the order of the map
  (`OrderMatters`, `OrderFreeIff`).
- Backing up a session that is not in the store is a nil dereference (`BackupRoomKeys`).

## Model

| member | source | states |
|---|---|---|
| SortedTree.PutSpec | internal/matrix/message_tree.go:89-100 | Setting an item keeps the strict order by instant and identifier and displaces exactly the item with the same key |
| SortedTree.DropSpec | internal/matrix/message_tree.go:197-200 | Deleting removes exactly the item with the key of the message and keeps the order |
| SortedTree.SortedUnique | internal/matrix/message_tree.go:89-94 | The order is strict and total on keys: two trees with the same items are the same tree |
| SortedTree.NeighborsAreClosest | internal/matrix/message_tree.go:601-622 | The neighbours of an item are the greatest item below it and the least above it, or none if there is none |
| Messages.BeforeTotal | internal/matrix/message_tree.go:89-94 | Any two messages are ordered one way, or have the same instant and identifier |
| Messages.BeforeIff | internal/matrix/message_tree.go:89-94 | The order written out: the earlier instant, and for equal instants the first difference of the identifiers |
| Timeline.SetTree | internal/matrix/message_tree.go:538-570 | After `Set` the tree holds the message, without the entry its nonce replaces and without the entry of the same key, and is otherwise unchanged |
| Timeline.SetAgreesIff | internal/matrix/message_tree.go:538-570 | One `Set` keeps the index the exact map of the tree if and only if no remaining entry has the identifier with another instant |
| Timeline.ClockedStep | internal/matrix/message_tree.go:89-206 | Order, one instant per identifier, self-keyed nonces and the empty table of pending redactions survive every critical section |
| Runs.StepKeepsInv | internal/matrix/message_tree.go:159-367 | Every completed send, sync message, page event, embed, redaction and retry, stale ones included, keeps tree, index, nonce table and raw store consistent |
| Runs.RunKeepsInv | internal/matrix/message_tree.go:34-67 | In every state reached by completed steps: one entry per identifier, index exact, placeholders exactly those the nonce table waits for, stored events under their own identifier |
| Runs.StepKeepsRawIff | internal/matrix/message_tree.go:159-178 | A step leaves every undecryptable entry with its raw event if and only if it is no embed written back for an undecryptable snapshot whose raw event is gone |
| Runs.RunKeepsRaw | internal/matrix/message_tree.go:303-348 | Over runs without such an embed every undecryptable entry can be retried |
| Runs.StrayEmbedSticks | internal/matrix/message_tree.go:159-178 | After a successful retry and the old snapshot's embeds the entry is undecryptable, has no raw event, and no retry changes anything |
| Pages.StrayEmbedReached | internal/matrix/message_tree.go:298-312 | The same run from the empty timeline, for any event that does not decrypt at first |
| Runs.RetryPanicsIff | internal/matrix/message_tree.go:351-356 | In every consistent state a retry panics exactly if its stored event decrypts to a message redacted inside, and stores something exactly if it decrypts to one that is not |
| Pages.RetryPanicReached | internal/matrix/message_tree.go:351-356 | From the empty timeline: an event that does not decrypt at first, and a retry of its entry that panics |
| Runs.RetryResult | internal/matrix/message_tree.go:331-367 | A retry changes nothing unless it succeeds, and then stores the message and drops the raw event |
| Schedule.ActLocal | internal/matrix/message_tree.go:538-570 | What a critical section leaves under some identifiers depends only on what stood under them |
| Schedule.ActFrame | internal/matrix/message_tree.go:538-570 | A critical section leaves every other identifier's entry, nonce and raw event alone |
| Schedule.InterleaveResult | internal/matrix/message_tree.go:280-328 | After any schedule each goroutine's identifiers hold what it alone would have left, and the rest is unchanged |
| Schedule.ScheduleIndependent | internal/matrix/message_tree.go:280-328 | Every interleaving of goroutines on disjoint identifiers ends in the same tree, index, nonce table and raw store |
| Pages.PageIndependent | internal/matrix/message_tree.go:260-329 | Every schedule of a page ends where its events end one after the other, and keeps the invariant |
| Pages.PageSettles | internal/matrix/message_tree.go:280-328 | Whatever the schedule, each event's message is its only entry, and a decrypting placeholder is left exactly for events that decrypt to no message or to one redacted inside |
| Pages.FinalMessageFields | internal/matrix/message_tree.go:284-320 | The final message of an event field by field: identifier, instant and author of the event, its content, reason or nothing, its marks and its embeds |
| Interleaved.InterleavedAgree | internal/matrix/message_tree.go:159-447 | Any sends, sync messages, page events, embeds, redactions and retries at once, stopped after any sections in any order: index and tree agree except under identifiers that a redaction has taken and not set again, and all tables are consistent when there is none |
| Interleaved.OpenDisagrees | internal/matrix/message_tree.go:440-446 | Between the two halves of a redaction they do not agree |
| Interleaved.AloneIsStep | internal/matrix/message_tree.go:159-447 | A goroutine that runs alone, section by section, does what its step does in one go |
| Mirror.ActIsMirroredIff | internal/service/chat.go:60-111 | A list that shows the tree shows it after one section if and only if no replacement crosses an item or hits a present identifier and no embed is written back for an absent item |
| Mirror.RunIsMirrored | internal/service/chat.go:60-123 | After any run of such sections of any goroutines the patched list is the ascending list of the tree |
| Mirror.ActPermutesIff | internal/service/chat.go:69-111 | Exactly when one section keeps the patched list a permutation of the tree's identifiers |
| Mirror.RunPermutes | internal/service/chat.go:60-123 | With crossing replacements allowed, the patched list stays a permutation of the tree's identifiers over whole runs |
| Mirror.AddIsMirrored | internal/service/chat.go:70-89 | Inserting before the next, else after the previous, else at the end, puts a new message where the tree has it |
| Mirror.ExchangeIsMirroredIff | internal/service/chat.go:91-99 | Exactly when swapping the placeholder's element in place shows the tree after the replacement |
| MirroredSteps.EchoFitsIff | internal/matrix/message_tree.go:547-555 | An echo is shown rightly if and only if no entry lies between it and its placeholder and it is not there yet |
| MirroredSteps.RedactionIsMirrored | internal/matrix/message_tree.go:440-447 | The list always follows a whole redaction |
| MirroredSteps.RetryIsMirrored | internal/matrix/message_tree.go:331-367 | The list always follows a retry of an entry that is still there |
| MirroredSteps.StepsAreMirrored | internal/service/chat.go:60-123 | Over any run of completed steps that meet the conditions the patched list is the list of the tree |
| MirroredSteps.PageIsMirroredIff | internal/matrix/message_tree.go:282-325 | A list that shows the tree is, patched through a page event, the list of the tree again if and only if no placeholder is replaced, or the event is new and no entry of its instant lies between the two identifiers |
| MirroredSteps.CrossingEchoIsMisplaced | internal/service/chat.go:91-95 | From the empty timeline: a send, a message of a later instant, and an echo after which the list has the echo first and the tree has it last |
| MirroredSteps.RepeatedEchoIsDoubled | internal/service/chat.go:91-95 | From the empty timeline: a send, a page that brings the message, and its echo, after which the list has it twice and the tree once |
| MirroredSteps.EmbedInRedaction | internal/matrix/message_tree.go:159-206 | Embeds of any entry written back between the halves of its redaction: the tree has the message and the list does not |
| MirroredSteps.EmbedInFirstRedaction | internal/matrix/message_tree.go:440-447 | The same from the empty timeline |
| Lifecycle.EchoReplacesSend | internal/matrix/message_tree.go:497-563 | A send, any steps that name another nonce, and the echo leave exactly one entry for the message and no placeholder |
| Sync.SendStands | internal/matrix/message_tree.go:497-505 | A send leaves the written text as the only entry under its nonce, waiting for its echo, and changes no other entry |
| Sync.MessageArrives | internal/matrix/message_tree.go:434-438 | A sync message ends as the only entry of its event with the event's instant, author and content, takes the placeholder of its transaction away and changes no other entry |
| Sync.EchoArrives | internal/matrix/message_tree.go:434-438 | A send, any steps that name another nonce, and the sync event with that transaction: one entry with the fields of the event, and no placeholder |
| Sync.RedactionArrives | internal/matrix/message_tree.go:208-215 | A redaction leaves the entry marked and with the reason as content; instant, author, embeds and undecryptable mark stay, and so does every other entry |
| Sync.OthersChangeNothing | internal/matrix/message_tree.go:434-450 | Unreadable messages, redactions of unknown events and other event types change nothing |
| Sync.RedactionSticks | internal/matrix/message_tree.go:208-447 | After a redaction and any steps that do not undo it, every entry of the identifier is marked and reads the reason or that of a later redaction |
| Sync.RetryArrives | internal/matrix/message_tree.go:331-367 | A successful retry leaves the message with the stored event's instant and author as the only entry, forgets the event and what waited for it, and changes no other entry |
| Sync.UndecryptableIsKept | internal/matrix/message_tree.go:299-306 | An event that does not decrypt is kept for a retry as it came |
| Sync.WaitingRedactionApplies | internal/matrix/message_tree.go:565-570 | A redaction that waits for its message is applied to the entry and the announcement when the message is set |
| Lifecycle.RedactionHoldsIff | internal/matrix/message_tree.go:159-447 | A redacted entry still shows as redacted after a step unless that step writes an unredacted state of it |
| Lifecycle.EntryAfter | internal/matrix/message_tree.go:159-447 | The entry under an identifier after every kind of completed step |
| Retries.RetryKeepsOrder | internal/matrix/message_tree.go:331-367 | A retry changes neither the identifiers of the tree nor their order |
| Retries.RetryProgress | internal/matrix/message_tree.go:331-367 | A retry whose event is kept and decrypts to a message takes exactly its own entry off the undecryptable ones, any other none |
| Retries.RetryCounts | internal/matrix/message_tree.go:331-367 | So the number of undecryptable entries drops by exactly one for such a retry |
| Retries.RoundSettles | internal/matrix/message_tree.go:369-391 | A round crashes exactly if some kept event decrypts to a message redacted inside; otherwise any schedule leaves exactly the entries undecryptable whose event is gone or did not decrypt to a message, with identifiers and order kept |
| Retries.RetryAfterRedaction | internal/matrix/message_tree.go:208-215 | A retry of a redacted entry undoes the redaction exactly if the entry is undecryptable, its event is kept and decrypts to a message, and panics exactly if that message is redacted inside |
| Render.SetIsGroupedAsRendered | internal/service/chat.go:65-67 | The callback's continued flag for every event of `Set` is what a full render computes at that position: the entry before is by the same author and at most five minutes away |
| Render.EventsCarryEntries | internal/matrix/message_tree.go:572-590 | What is announced about an entry is the entry that the tree then has; what is announced as removed is gone |
| Render.WriteBackIsGroupedIff | internal/matrix/message_tree.go:175-178 | The flag of an embed written back is that of a full render exactly if the entry before it is by somebody else or more than five minutes away, or there is none |
| Render.EmbedLosesGroup | internal/service/chat.go:65-67 | Two messages of one author: the second is grouped by its own event and by a full render, and not by the event of its embeds |
| Render.ReversedDescends | internal/matrix/message_tree.go:624-636 | The chronological list is strictly descending and holds each entry of the tree |
| RoomTimeline.MessageTree.Set | internal/matrix/message_tree.go:538-599 | In place: the state, the announced event and both results are those of the specification |
| RoomTimeline.MessageTree.GetNeighbors | internal/matrix/message_tree.go:601-622 | The iterator walk finds the specified neighbours |
| RoomTimeline.MessageTree.DeleteMessage | internal/matrix/message_tree.go:197-206 | Removes the item and announces it, index untouched |
| RoomTimeline.MessageTree.FetchAndApplyEmbeds | internal/matrix/message_tree.go:159-179 | Writes the snapshot back and announces it, or does nothing without embeds |
| RoomTimeline.MessageTree.Redact | internal/matrix/message_tree.go:440-447 | Takes the entry from the index, deletes it and sets the redacted message, with both events |
| RoomTimeline.MessageTree.HandleSync | internal/matrix/message_tree.go:434-450 | Each sync event runs its program; unreadable messages and other types change nothing |
| RoomTimeline.MessageTree.RetryDecryptMessage | internal/matrix/message_tree.go:331-367 | State, result, panic and announced events for every outcome of the decryption |
| RoomTimeline.MessageTree.RetryDecryptAll | internal/matrix/message_tree.go:369-391 | Scans the undecryptable entries and runs a goroutine for each in any schedule: crash, or state and announced events |
| RoomTimeline.MessageTree.PopulateEvent | internal/matrix/message_tree.go:282-325 | One event's goroutine, branch by branch, with everything it announces |
| RoomTimeline.MessageTree.PopulateTree | internal/matrix/message_tree.go:280-328 | Runs a goroutine for each event of a page in any schedule: state and announced events |
| RoomTimeline.MessageTree.LoadNextMessages | internal/matrix/message_tree.go:181-195 | Token, end flag, result, state and announced events of one call, failures included |
| RoomTimeline.MessageTree.SendMessage | internal/matrix/message_tree.go:497-536 | The placeholder set and announced under its nonce, and the request with the nonce as its transaction, in every case of failure |
| RoomTimeline.MessageTree.Chronological | internal/matrix/message_tree.go:624-636 | The collected list is the tree reversed |
| Pagination.FlagUpIff | internal/matrix/message_tree.go:273-278 | The end flag is up if and only if some successful answer had no token or the token of its own request; until then the next request carries the end of the last successful answer |
| Pagination.LoadedIsSuffix | internal/matrix/message_tree.go:181-278 | What all calls loaded is a gap-free run of the history ending at the newest event of the first successful fetch; no fetch restarts from the top; once the end flag is up nothing is missing, unless the server repeated a token on an empty page |
| Pagination.LoadedBelow | internal/matrix/message_tree.go:260-278 | Further calls load exactly the segment next to where the last one stopped |
| Pagination.EndIsPermanent | internal/matrix/message_tree.go:185-187 | After the end flag nothing changes and nothing is loaded |
| Pagination.LoadingTerminates | internal/matrix/message_tree.go:273-278 | More successful, progressing calls than the history has events set the end flag |
| History.CallsAdd | internal/matrix/message_tree.go:181-328 | Over any state, calls, failures and schedules, loading adds to the tree exactly what the loaded events leave: the message each ends as, and the placeholders that nothing replaces |
| History.HistoryIsShown | internal/matrix/message_tree.go:181-328 | From the empty timeline the tree ends up holding exactly what a gap-free run of the history leaves, up to the newest event of the first successful fetch, and from its beginning once the end flag is up (or a token was repeated on an empty page) |
| CacheFlight.ExclusiveRun | internal/cache/cache.go:32-66 | Leaders and flights belong together in every run, so one goroutine at a time works on a key |
| CacheFlight.OneLeader | internal/cache/cache.go:38-48 | Two goroutines that work on the same key are the same goroutine |
| CacheFlight.StampedeBound | internal/cache/cache.go:48-59 | Without evictions any number of concurrent calls makes at most one successful miss fetch for a key, and none if it has a value |
| CacheFlight.LookRefreshesIff | internal/cache/cache.go:33-48 | A look answers with the stored entry and starts a refresh if and only if the entry is older than the ttl; with nothing stored it goes on to a flight; nobody else moves |
| CacheFlight.NoFetchWhileFresh | internal/cache/cache.go:33-48 | Without evictions and with nobody fetching or about to refresh, no call of the function for a key ends while the clock is within the ttl of its entry, however many callers there are |
| CacheFlight.RefreshIsCaused | internal/cache/cache.go:34-44 | Every refresh fetch of any run comes from an earlier look that found an entry of its key older than the ttl |
| CacheFlight.FetchIsStored | internal/cache/cache.go:40-57 | What a miss or a refresh fetches is stored under its key with the instant at which the function answered, whatever happens in between |
| CacheFlight.EvictionForgets | internal/cache/cache.go:68-74 | An eviction takes exactly the entry of its key, or all |
| CacheFlight.Provenance | internal/cache/cache.go:32-66 | In every run callers get values or errors that the function answered for their key, and only values are stored |
| CacheFlight.AgesNeverDecrease | internal/cache/cache.go:36-57 | Without evictions entries stay and their fetch time never decreases |
| CacheFlight.CastFailsIff | internal/cache/cache.go:42-65 | The final cast panics exactly for the callers that joined a refresh flight |
| CacheFlight.LateCallerPanics | internal/cache/cache.go:33-48 | Such a panic is reachable without any eviction |
| Verified.TrueIsEarned | internal/matrix/session.go:470-518 | Where calls do not overlap, a true answer needs a check that succeeded |
| Verified.FalseIsCachedIff | internal/matrix/session.go:478-487 | Where calls do not overlap, the cache comes to hold false if and only if a check finds the device missing where its answer is stored |
| Verified.FalseIsCached | internal/matrix/session.go:478-487 | A run after which the cache holds false |
| Verified.FreshAfterVerification | internal/matrix/verification.go:417-418 | Where calls do not overlap, the first answer after a finished verification is that of a fresh check |
| Verified.NothingOldIsAnswered | internal/matrix/verification.go:417-418 | Where calls do not overlap, in every run after a finished verification or new keys each answer is the verdict of a check that ran since: true of one that found the device trusted, false of one that did not |
| Verified.AskRefreshesIff | internal/matrix/session.go:213 | A question starts a background refresh exactly if it is answered from the cache with a verdict more than half an hour old |
| VerifiedCalls.AnswersAreEarned | internal/matrix/session.go:470-518 | With overlapping calls every answer is the verdict of the check that it names, so a true one needs a check that succeeded |
| VerifiedCalls.FalseIsCachedIff | internal/cache/cache.go:48-59 | With overlapping calls the cache comes to hold false if and only if a goroutine of the cache finds the device missing and stores that |
| VerifiedCalls.FreshIff | internal/matrix/verification.go:417-418 | Every call that begins after a moment is answered by a check that begins after it if and only if the cache then has no verdict, is about to store or deliver none, and is fetching none |
| VerifiedCalls.FinishedIsFreshIff | internal/matrix/verification.go:417-418 | After the two steps at the end of a verification, whatever was cached, every later call is answered by a later check if and only if no flight is fetching a verdict or about to store or deliver one |
| VerifiedCalls.ConfirmedIff | internal/matrix/verification.go:417-418 | After a finished verification no later call gets a verdict that no check begun since has found if and only if the cache then is not fetching, has or hands out no false, and no true while an older call is in its own check or about to raise the flag |
| VerifiedCalls.SoundRun | internal/cache/cache.go:48-60 | In every run, evictions included, what a flight is about to store or deliver fits what is stored, and comes from a goroutine that has begun its check |
| VerifiedCalls.OverlapIsStale | internal/matrix/session.go:509-515 | A run of overlapping calls and a finished verification after which a later call is answered by an earlier check, and with a verdict not found since |
| Verified.Session.IsVerified | internal/matrix/session.go:470-518 | Flag, cache, pending refreshes and answer after one question, whether or not it joins a refresh |
| Verified.Session.OnVerificationDone | internal/matrix/verification.go:417-418 | A finished verification empties the cache and lowers the flag |
| SessionStore.CacheIsTransparent | internal/session/session.go:90-170 | Any run of gets, updates and deletes answers as the keyring alone would, wherever the cache loses entries |
| SessionStore.FoundIsCached | internal/session/session.go:109-130 | A session that a get finds, or an update stores, is in the cache afterwards |
| SessionStore.StaysCached | internal/session/session.go:109-130 | Until it is deleted or lost the cached session answers, whatever the keyring holds |
| SessionStore.FirstUpdateIsBlank | internal/session/session.go:148-162 | The first update of a user edits a session that has nothing but the user |
| SessionStore.UserMustStayIff | internal/session/session.go:136-162 | An edit keeps the cache right if and only if it keeps the user or there was no session |
| SessionStore.FailedWriteIff | internal/session/session.go:95-97 | A failed keyring write leaves the cache right if and only if the edit changed nothing or there was no session |
| SessionStore.KnownUsersMatch | internal/session/session.go:222-252 | Known users are exactly the users with a stored session, without repetition, and the last user is the last saved |
| SessionStore.KnownKeepOrder | internal/session/session.go:222-242 | A new known user comes last, and one that goes leaves the others in place |
| SessionStore.SessionStore.Get | internal/session/session.go:109-130 | Answer, shared object and cache after a look, undecodable entries included |
| SessionStore.SessionStore.UpdateAndGet | internal/session/session.go:148-162 | The edit works on the cached object in place; state and answer with and without a successful write |
| SessionStore.SessionStore.Save | internal/session/session.go:90-107 | Keyring, cache, known users and last user after a save |
| SessionStore.SessionStore.Delete | internal/session/session.go:164-170 | The user leaves keyring, cache and known users |
| SessionStore.SessionStore.RemoveKnownUser | internal/session/session.go:232-242 | The filter loop keeps the others in order |
| KeyBackup.KeyBackupManager.RestoreRoomKeys | internal/matrix/key_backup.go:173-236 | For any entries and any map order the visited ones are merged one by one, the count is the number imported, and exactly an unreadable session ends it early |
| KeyBackup.MergeIsMinimum | internal/matrix/key_backup.go:204-232 | An honest entry that opens leaves the smaller of the two first indexes |
| KeyBackup.TurnNeverWorseIff | internal/matrix/key_backup.go:204-232 | One turn raises no session's first index, whatever is stored, if and only if the entry does not open, or is filed and claims at least its index less one, or is misfiled and starts at 0 |
| KeyBackup.HarmlessRestoreIff | internal/matrix/key_backup.go:198-235 | No complete restore of a room, in any map order and over any store, raises a first index if and only if each entry is such a one |
| KeyBackup.TurnsCommuteIff | internal/matrix/key_backup.go:204-232 | Exactly when two entries can be visited in either order, whatever is stored |
| KeyBackup.OrderFreeIff | internal/matrix/key_backup.go:198-235 | All complete restores of a room, in every map order, end in the same store over every store if and only if the entries commute in pairs |
| KeyBackup.OrderMatters | internal/matrix/key_backup.go:198-233 | Two misfiled entries whose two orders leave index 5 and index 9 |
| KeyBackup.UnwritableStays | internal/matrix/key_backup.go:228-231 | A session that cannot be written stays as it is through any visits |
| KeyBackup.ClaimsWrap | internal/matrix/key_backup.go:208-210 | A claimed index counts modulo 2^32: -1 is never imported over a stored session |
| KeyBackup.FiledCommute | internal/matrix/key_backup.go:198-233 | Entries under their own identifiers give one result in every order |
| KeyBackup.FiledRestore | internal/matrix/key_backup.go:198-233 | Each of their sessions gets its own merge and no other session changes |
| KeyBackup.FiledCount | internal/matrix/key_backup.go:232-235 | The count is then the number of sessions added or improved |
| KeyBackup.RestoredAgainIff | internal/matrix/key_backup.go:204-232 | A second turn imports an entry again if and only if the first did and the entry is misfiled or claims less than its index |
| KeyBackup.SecondRestoreIsIdleIff | internal/matrix/key_backup.go:195-235 | A second complete restore of filed entries imports zero, and changes nothing, if and only if every entry the first one imported claims at least its index |
| KeyBackup.KeyBackupManager.BackupRoomKeys | internal/matrix/key_backup.go:255-315 | When it fails, when it panics, and otherwise the upload: the packed session under its own identifier |
| KeyBackup.BackupRoundTrip | internal/matrix/key_backup.go:255-315 | Given that import undoes export: a packed session restores to itself with the same key, leaves a store that has it alone, and changes no store with another key |
| Typing.ShownAre | internal/matrix/typing.go:60-92 | At any time a room shows exactly the users of its latest typing event up to 30 seconds after it, nobody later, whatever clean-ups ran |
| Typing.TypingTracker.SetTyping | internal/matrix/typing.go:37-58 | The room after a user starts or stops |
| Typing.TypingTracker.CleanupExpired | internal/matrix/typing.go:80-92 | Exactly the entries past their deadline go |
| Typing.TypingTracker.GetTypingUsers | internal/matrix/typing.go:60-78 | The names of exactly the unexpired users other than the own, each once |
| Typing.TypingTracker.GetTypingUsersForRoom | internal/matrix/typing.go:135-153 | The unexpired users other than the own, each once |
| Typing.TypingTracker.OnTyping | internal/matrix/session.go:323-345 | A typing event makes exactly its users type in its room and touches no other room |
| TokenRefresh.RefreshWait | internal/matrix/refresh.go:148-158 | The wait is never below the floor, overflow included |
| TokenRefresh.WaitIsExactIff | internal/matrix/refresh.go:153 | For positive lifetimes the 64-bit arithmetic is exact if and only if the lifetime is at most 115292150460 ms |
| TokenRefresh.WaitEndsInTimeIff | internal/matrix/refresh.go:148-158 | Within that bound the wait ends before the token expires if and only if it lives longer than 30 s |
| TokenRefresh.AttemptUsesLatest | internal/matrix/refresh.go:36-56 | Every attempt sends the token that the attempts before it lead to, 30 seconds after a failure and otherwise after the wait for the lifetime in use |
| TokenRefresh.LatestTokenIsUsed | internal/matrix/refresh.go:71-73 | The token in use is the last non-empty one received, and is never empty |
| TokenRefresh.LatestAccessIsUsed | internal/matrix/refresh.go:62-88 | The access token in use is that of the last success, the lifetime the last positive one |
| TokenRefresh.PersistedTokensMatch | internal/matrix/refresh.go:75-88 | Once the last response is persisted the keyring holds what the loop works with, whatever was lost before |
| TokenRefresh.KeyringIsLastPersisted | internal/matrix/refresh.go:75-88 | The keyring holds what the loop worked with when something was last persisted, or what it held before |
| TokenRefresh.Manager.TokenRefreshLoop | internal/matrix/refresh.go:36-97 | Tokens sent, waits, client token, cached session and keyring over any run of attempts |
| TokenRefresh.Manager.StartTokenRefresh | internal/matrix/refresh.go:24-34 | The loop starts exactly for a session with a refresh token and a positive lifetime, and never sends an empty token |
| Hub.Delivery | internal/ws/client.go:53-63 | In any run a client accepts, in order, a subsequence of what is meant for it, all of it if it is open whenever something comes, and sends first in first out |
| Hub.MeantIsHeard | internal/ws/hub.go:50-71 | What is meant for a client is exactly what is pushed to its user, or broadcast to the room it entered last, while it is registered |
| Hub.RefusedIff | internal/ws/client.go:53-62 | A message is refused exactly if 256 are waiting, or the client is cancelled and refuses |
| Pipeline.ClientFollowsTree | internal/service/chat.go:60-123 | At any point of a joint run of the room's sections, the callback's broadcasts and whatever else the hub does, the client's list patched with what is in its queue and in the listener channel is the list of the tree |
| Pipeline.ClientShowsTree | internal/service/chat.go:60-123 | Whenever both are empty the client shows the tree |
| Pipeline.StepIsGood | internal/service/chat.go:60-123 | Completed steps that meet the mirror's conditions on the tables are among those runs |
| Hub.Client.Send | internal/ws/client.go:53-62 | Accepts if open, refuses if full, either if cancelled; the result says which |
| Hub.Client.SetActiveRoom | internal/ws/client.go:64-68 | Only the active room changes |
| Hub.Client.Pump | internal/ws/client.go:92-95 | The oldest queued message is sent |
| Hub.ClientHub.Register | internal/ws/hub.go:21-30 | The client joins the bucket of its user, everyone else stays |
| Hub.ClientHub.Unregister | internal/ws/hub.go:32-48 | The client leaves, empty buckets go, everyone else stays |
| Hub.ClientHub.Push | internal/ws/hub.go:50-57 | Exactly the user's clients are offered the message |
| Hub.ClientHub.BroadcastToRoom | internal/ws/hub.go:59-71 | Exactly the registered clients in the room are offered the message |

## Left out

- checkRegrouping: it redraws the previous bubble, not the next one; identifiers and order do not depend on it.
- sendEventToListeners: its overflow path (a goroutine with a five-second timeout) and the life of the listener channels; the model's channel never fills.
- embedCache: the model takes what the cache answers as a parameter of the write-back; the cache itself is `CacheFlight`.
- Sharing of group sessions, requests for missing sessions and the backup that follows a delayed decryption: network and library calls; their outcomes are parameters.
- MessageTree.Initialize and the retry that `Chronological` starts in the background: the first is a once-only call of `LoadNextMessages`, the second is `RetryDecryptAll`.
- Verified.Session.IsVerified: one call at a time; overlapping calls are `VerifiedCalls`, on values.
- Verified.TrueIsEarned: one call at a time; overlapping calls are `VerifiedCalls.AnswersAreEarned`.
- Verified.FalseIsCachedIff: one call at a time; overlapping calls are `VerifiedCalls.FalseIsCachedIff`.
- Verified.FreshAfterVerification: one call at a time; overlapping calls are `VerifiedCalls.FreshIff` and `VerifiedCalls.ConfirmedIff`.
- CacheFlight: on values rather than an object, since its subject is the interleaving of calls.
- SessionStore: callers that change a session object they got without an update; failures of the known-users and global-settings writes; cookies.
- KeyBackup.BackupRoundTrip: that importing an export gives the session back, and that a wrong key does not open an entry, is assumed of the library.
- KeyBackup: key generation and secret storage.
- Typing.TypingTracker.OnTyping: one instant per typing event; the race between the handler's unlocked scan of the room and other calls; listeners.
- TokenRefresh.Manager.TokenRefreshLoop: a finite run of attempts, cancellation being the end of the run; the HTTP request.
- Hub.ClientHub: logging, the pings and deadlines of the pumps, and closing of connections.
- Rendering, handlers, configuration, the web view and the mobile shells.
