# Verified models of the chat client and its cloud server

Dafny models of the stateful parts of the repository: the realtime reconnect protocol, the send
throttle and session lifecycle, the local message store, the account buckets of the client, the
incremental event-stream parser, the civil-date formula, the server's sign-in protocol with its rate
limit, the callback URL printer and parser, and JSON redaction. Each operation is modelled with the
branches, constants and error cases of the code. Code that changes state is a class or a loop
whose methods are proved equal to a function of the old state; protocols are transition systems
whose steps are those functions; the properties are lemmas over every input, every run and every
interleaving.

## Modules

| module | what it models |
|---|---|
| `Realtime`, `RealtimeProtocol` | `CloudRealtime` of the mobile client; the controller together with start calls in flight, `listen` calls, event handlers, the timer and the Rust stream tasks with undelivered events |
| `Throttle`, `Sessions` | `SendThrottle`; `SessionManager` with its listeners |
| `MessageStore`, `StoreHistory`, `StoreContents` | the SQL statements of the desktop message store; what its counters, rows and thread identities mean over any history |
| `ChatView`, `ChatHistory`, `ChatEffects`, `Accounts`, `AccountSwitching`, `AccountEffects`, `ReadMarks` | appending, echo reconciliation and opening threads in one bucket, and its counts over any history; the buckets, the visible view and the account rail; runs of account operations; what each operation changes and leaves alone; when a read thread stays read |
| `SseParser` | `drain_sse_events`, the stream task's push/drain loop and the frames the server writes (section 9.2 of the WHATWG HTML Living Standard) |
| `CivilDate` | `civil_from_days` under truncating division, against the Gregorian calendar (section 5.7 and Appendix C of RFC 3339) |
| `Crypto`, `SignIn`, `SignInHandlers`, `RateLimit` | data-key wrapping over an abstract cipher; the two sign-in handlers interleaved statement by statement; the same handlers in place; the magic-link limit |
| `Text`, `Utf8`, `CallbackUrl`, `CallbackRequest` | the string operations used; UTF-8 (section 3 of RFC 3629) and percent-encoding (sections 2.1 and 2.3 of RFC 3986); the callback URL printers, the loopback parser, the origin check and the answers to whole requests |
| `Redact` | `redact_json` |

## What the proofs say about the code

Where a promise does not hold on all inputs, the exact condition is proved.

* **Reconnect.** A run gets stuck if and only if one of two things happens: `start` returns at its
  `starting` guard with nothing else under way, or a sign-in finds the state already live although no
  stream is left (`RealtimeProtocol.NeverStuckIff`). Neither can happen when a start call's reply
  arrives before the events of its stream and sign-in and sign-out do not overtake a pending
  `listen` (`NeverStuck`); then the system also finds back to live, or to the gate, from every
  reachable state without user action (`RecoversFromAnywhere`). Both hypotheses are needed:
  `OvertakenReplyDeadlocks` and `OvertakenListenDeadlocks` each reach a permanent deadlock by a run
  that obeys the other one.
* **Throttle.** `forget` is the only call that can break the spacing of an account's sends; it does so
  exactly when the account is used again within the interval. A send looks its session up and reserves
  its slot under two locks, so it can reserve after its session was removed and forgotten; the lemmas
  about slots hold for reservations and forgets in any order.
* **Message store.** An undo is remembered exactly when its row exists; an undo that arrives before
  its message is lost (`UndoCommutesWithSaveIff`). Deliveries of the same messages converge on messages,
  thread keys, unread counts and coalesced `last_at`; on a thread's kind, title and avatar exactly when
  they gave the same value last (`ColumnConvergesIff`).
* **Read marks.** `selectThread` clears the unread count in the view only. Sending, reacting and opening a
  thread by id show the bucket's conversations again, and with them the old count, even of the thread
  replied in. Leaving the account before any of these saves the mark until the next
  reload. `ReadMarkKeptIff`
  gives the exact condition over every run, `OneVisitKeptIff` while the account stays open.
* **Event stream.** The client parses each `data:` line on its own, while the standard joins the lines
  of one event. The two agree exactly on frames of at most one data line (`AgreesWithStandardIff`),
  which is what the server sends.
* **Rate limit.** The count and the insert are separate statements. With `k` requests of an email
  between the two at once, a window holds up to `limit + k - 1` of its links, and that many are reached.
* **Callback URL.** Values survive exactly when they are trimmed and not empty and the printed base URL is
  a trimmed http(s) URL. The Origin header, stripped of whitespace
  and trailing slashes, must be the origin of the base URL letter by letter. Browsers
  write origins with a lower-case host and without a default port, so with a base URL such as
  `https://Example.com` the values parse and the page is refused (`OtherSpellingRefused`); and the
  origin derived from `http://h /x`, which `normalize_base_url` lets pass, is refused for its whitespace.
* **Redaction.** Two documents redact alike if and only if they differ only under secret keys with equal
  measured length there. A document is unchanged if and only if every secret key holds the text
  `***redacted(18)***`, the one placeholder that stands for itself.

The only assumption about cryptography is that `open` undoes `seal` under the same key and nonce; the
lemma about signing in with a recovery key also takes that a password hash accepts its own key.

## Model

| member | source | states |
|---|---|---|
| `RealtimeProtocol.NeverStuckIff` | apps/mobile/src/lib/session-realtime.svelte.ts:54-157 | Over every run: never stuck (connecting or reconnecting has a timer, an open call, a pending listen or an unfinished stream; live has an unfinished stream) if and only if no start is lost at the `starting` guard and no sign-in meets a live state without a stream |
| `RealtimeProtocol.NeverStuck` | apps/mobile/src/lib/session-realtime.svelte.ts:54-157 | From a fresh start, every run in which replies precede their stream's events and sign-in or sign-out does not overtake a pending listen is never stuck, across any number of sign-ins |
| `RealtimeProtocol.RecoversFromAnywhere` | apps/mobile/src-tauri/src/lib.rs:335-387 | From every state such a run reaches with credentials held, some continuation by replies, events and timers alone reaches a live stream or the gate |
| `RealtimeProtocol.OvertakenReplyDeadlocks` | apps/mobile/src/lib/session-realtime.svelte.ts:109-128 | A run in which no sign-in or sign-out overtakes a pending listen, but a stream's events overtake the reply, ends showing reconnecting forever: the retry timer fired while the late reply still held `starting` |
| `RealtimeProtocol.OvertakenListenDeadlocks` | apps/mobile/src/lib/session-realtime.svelte.ts:54-59 | A run in which every reply precedes its stream's events, but a sign-out overtakes a pending listen, ends showing live forever without a stream: the late handler marked the controller live |
| `RealtimeProtocol.StepKeepsInv` | apps/mobile/src/lib/session-realtime.svelte.ts:95-157 | Every step of every interleaving keeps: live exactly when listening, an attempt above zero exactly when reconnecting, attempt at most 6, an armed timer only while reconnecting and with the delay of the attempt, every closed stream ends in an undelivered disconnect until it is delivered |
| `RealtimeProtocol.RunKeepsInv` | apps/mobile/src/lib/session-realtime.svelte.ts:54-157 | The same facts after any run |
| `RealtimeProtocol.StepNotStuckIff` | apps/mobile/src/lib/session-realtime.svelte.ts:54-157 | A single step keeps the controller unstuck if and only if it is none of the two unsafe ones |
| `RealtimeProtocol.OrderlyIsSafe` | apps/mobile/src/lib/session-realtime.svelte.ts:54-128 | In every state orderly runs reach, a step at which replies precede their stream's events and no sign-in or sign-out overtakes a pending listen is safe |
| `RealtimeProtocol.OrderlyStepKeepsInv` | apps/mobile/src-tauri/src/lib.rs:335-387 | Under the two hypotheses: at most one handler, none while signed out, and an accepted call without reply has its whole stream ahead |
| `RealtimeProtocol.HandleByEffect` | apps/mobile/src/lib/session-realtime.svelte.ts:54-59 | Any number of registered handlers seeing the same event has the effect of one |
| `RealtimeProtocol.BackoffStep` | apps/mobile/src/lib/session-realtime.svelte.ts:143-157 | A step arms the timer only with the next attempt's delay, and the attempt never falls while reconnecting |
| `RealtimeProtocol.KthDelay` | apps/mobile/src/lib/session-realtime.svelte.ts:143-157 | Over every run without a success or sign-out between: the k-th retry is armed with 1000, 2000, 4000, 8000, 16000, and from the sixth on 30000 ms |
| `RealtimeProtocol.AttemptsCount` | apps/mobile/src/lib/session-realtime.svelte.ts:143-148 | Along such a run the attempt is the number of retries armed, at most 6 |
| `RealtimeProtocol.StreamTellsAndDelivers` | apps/mobile/src-tauri/src/lib.rs:341-385 | From the acceptance of its call on, over every run, a stream tells an error and the end, or the end with the status, or `connected`, anything, then the end, as far as it got; what was delivered of it is its front part in order, nothing twice and nothing left out |
| `RealtimeProtocol.ControlExactly` | apps/mobile/src/lib/session-realtime.svelte.ts:54-157 | What signing in, a resolved listen, signing out, asking for a reconnect, the timer and a reply change in the whole system, and what they leave alone |
| `RealtimeProtocol.DelaysNondecreasing` | apps/mobile/src/lib/session-realtime.svelte.ts:143-157 | Along a run that stays reconnecting, delays never shrink and lie between 1000 and 30000 ms |
| `Realtime.OperationsKeepConsistent` | apps/mobile/src/lib/session-realtime.svelte.ts:61-157 | Every operation of the controller keeps the exact relations between state, attempt, timer and flags, so a timer is never armed in a live state |
| `Realtime.DelayDoubles` | apps/mobile/src/lib/session-realtime.svelte.ts:149-150 | The first delay is 1000 ms; each next one is the smaller of 30000 and twice the one before |
| `Realtime.DelaysInARow` | apps/mobile/src/lib/session-realtime.svelte.ts:149-150 | The delay of each attempt as a number |
| `Realtime.HandledExactly` | apps/mobile/src/lib/session-realtime.svelte.ts:61-88 | Every event: a 401 or 403 resets; `connected`, or a message while not live, makes it live without a timer; any other failure arms one retry unless one is armed or no credentials are held |
| `Realtime.StartedExactly` | apps/mobile/src/lib/session-realtime.svelte.ts:109-121 | A start goes ahead exactly with credentials held, none in flight, and not live unless it is a retry |
| `Realtime.RepliedExactly` | apps/mobile/src/lib/session-realtime.svelte.ts:122-127 | A reply clears `starting`; a failure also arms a retry |
| `Realtime.DelayBounds` | apps/mobile/src/lib/session-realtime.svelte.ts:149-150 | The delay is monotone in the attempt and within 1000 and 30000 ms |
| `Realtime.CloudRealtime.Stop` | apps/mobile/src/lib/session-realtime.svelte.ts:95-107 | Every field is reset |
| `Realtime.CloudRealtime.Start` | apps/mobile/src/lib/session-realtime.svelte.ts:109-121 | Returns at the three guards; otherwise marks the start and shows connecting or reconnecting by the attempt |
| `Realtime.CloudRealtime.FinishStart` | apps/mobile/src/lib/session-realtime.svelte.ts:122-127 | A failed call schedules a reconnect; `starting` is cleared in any case |
| `Realtime.CloudRealtime.MarkConnected` | apps/mobile/src/lib/session-realtime.svelte.ts:130-141 | Disarms the timer, resets the attempt, goes live |
| `Realtime.CloudRealtime.ScheduleReconnect` | apps/mobile/src/lib/session-realtime.svelte.ts:143-157 | Nothing without credentials or with a timer armed; otherwise the attempt grows to at most 6 and its delay is armed |
| `Realtime.CloudRealtime.TimerFired` | apps/mobile/src/lib/session-realtime.svelte.ts:153-156 | Disarms and starts as a retry |
| `Realtime.CloudRealtime.Handle` | apps/mobile/src/lib/session-realtime.svelte.ts:61-88 | The new fields and credentials for each event, with a rejected token dropping to the gate |
| `Realtime.CloudRealtime.DropToGate` | apps/mobile/src/lib/session-store.svelte.ts:321-334 | The controller is reset and the credentials are gone |
| `Throttle.SlotClosedForm` | apps/desktop/src-tauri/src/session/mod.rs:92-100 | The n-th slot is the maximum over i <= n of t_i + (n - i) * interval |
| `Throttle.ScheduleIsOptimal` | apps/desktop/src-tauri/src/session/mod.rs:92-100 | Whatever the request times, slots are at least the interval apart and not before their request, and no such schedule serves any request earlier |
| `Throttle.AccountsIndependent` | apps/desktop/src-tauri/src/session/mod.rs:92-105 | An account's slots depend on its own calls only |
| `Throttle.SpacedIffForgottenLongEnough` | apps/desktop/src-tauri/src/session/mod.rs:92-105 | With `forget` anywhere in the run, slots stay spaced if and only if every reservation after a forget comes at least the interval after the last slot |
| `Throttle.ForgottenStartsOver` | apps/desktop/src-tauri/src/session/mod.rs:103-105 | After `forget` the account's next send need not wait, and other accounts keep their pace |
| `Throttle.FeasibleLowerBound` | apps/desktop/src-tauri/src/session/mod.rs:92-100 | Every spaced schedule serves request n no earlier than t_i + (n - i) * interval |
| `Throttle.SendThrottle.Reserve` | apps/desktop/src-tauri/src/session/mod.rs:92-100 | The returned wait ends at the slot, and only this account's entry moves, to slot plus interval |
| `Throttle.SendThrottle.Forget` | apps/desktop/src-tauri/src/session/mod.rs:103-105 | Only this account's entry is dropped |
| `Sessions.SessionManager.Insert` | apps/desktop/src-tauri/src/session/mod.rs:142-154 | Keeps the conservation law: every listener ever inserted is held and never stopped, or was stopped exactly once and is not held; a replaced listener is stopped |
| `Sessions.SessionManager.Remove` | apps/desktop/src-tauri/src/session/mod.rs:158-173 | Keeps the conservation law; reports presence; stops the removed listener once and forgets its pacing |
| `Sessions.SessionManager.Get` | apps/desktop/src-tauri/src/session/mod.rs:176-185 | The handle of the account's session, if there is one |
| `Sessions.SessionManager.ReserveSlot` | apps/desktop/src-tauri/src/session/mod.rs:237-240 | Whether or not the session still exists by then, the throttle hands out its slot and only this account's pacing moves |
| `Sessions.SessionManager.ReserveSend` | apps/desktop/src-tauri/src/session/mod.rs:224-243 | When nothing runs between lookup and reservation: an account without a session is refused and nothing changes; any other gets the throttle's slot |
| `Sessions.SessionManager.RunningCount` | apps/desktop/src-tauri/src/session/mod.rs:142-173 | The running listeners are those held, as many as there are sessions |
| `StoreHistory.RunKeepsLinked` | apps/desktop/src-tauri/src/store/db.rs:384-409 | In every reachable store each message has its thread row, each thread row has a message, and COALESCE(last_at, 0) is the maximum of COALESCE(ts, 0) over them |
| `StoreHistory.UnreadCounts` | apps/desktop/src-tauri/src/store/db.rs:384-410 | Unread equals the number of distinct messages stored with `bump_unread` since the last clear, whatever else intervenes |
| `StoreHistory.RunKeepsWindowed` | apps/desktop/src-tauri/src/store/db.rs:346-382 | In every reachable store two outgoing rows of one thread with equal text, or equal sticker id, and stamps are more than 15000 ms apart |
| `StoreHistory.DeliveryConverges` | apps/desktop/src-tauri/src/store/db.rs:364-409 | Two delivery sequences of the same inbound messages, in any order and with any repetition, from any store, leave equal messages, thread keys, unread counts and coalesced last_at |
| `StoreHistory.RowsPersist` | apps/desktop/src-tauri/src/store/db.rs:716-743 | Rows are never dropped or re-attributed, and a recalled row never regains body, sticker or link |
| `StoreHistory.UndoCommutesWithSaveIff` | apps/desktop/src-tauri/src/store/db.rs:733-743 | Undo and save commute if and only if the save stores nothing: an undo ahead of its message is lost |
| `StoreHistory.DeliveredRows` | apps/desktop/src-tauri/src/store/db.rs:364-409 | The rows after a delivery sequence, said without its order |
| `StoreHistory.DeliveredUnread` | apps/desktop/src-tauri/src/store/db.rs:384-409 | The unread count after a delivery sequence grows by the number of distinct new unread messages |
| `StoreHistory.DeliveredStamps` | apps/desktop/src-tauri/src/store/db.rs:384-409 | The last_at after a delivery sequence is the latest of the old one and the new messages' stamps |
| `StoreHistory.BackfillKeeps` | apps/desktop/src-tauri/src/store/db.rs:669-702 | A backfill changes no message, adds no thread and leaves last_at and unread alone |
| `StoreContents.RowIsHistory` | apps/desktop/src-tauri/src/store/db.rs:364-382 | After any run a row is the payload of the save that stored it, with the icon of the last reaction since and without body, sticker and link if an undo came since |
| `StoreContents.RowHasOrigin` | apps/desktop/src-tauri/src/store/db.rs:364-382 | Every row was stored by exactly one save of the run |
| `StoreContents.IdentityIsLastSupplied` | apps/desktop/src-tauri/src/store/db.rs:384-409 | After any run a thread's kind, title and avatar are each the last value supplied by a stored message or by a backfill that found the thread |
| `StoreContents.IdentityNeverSupplied` | apps/desktop/src-tauri/src/store/db.rs:384-409 | A column for which the run supplied no value is empty |
| `StoreContents.DeliveredColumn` | apps/desktop/src-tauri/src/store/db.rs:384-409 | After deliveries a thread's kind, title and avatar are each the last value given by a new message on its first arrival, else as before |
| `StoreContents.ColumnConvergesIff` | apps/desktop/src-tauri/src/store/db.rs:384-409 | Two delivery sequences of the same inbound messages agree on a thread's kind, title or avatar if and only if they gave it the same value last |
| `StoreContents.ColumnDiverges` | apps/desktop/src-tauri/src/store/db.rs:384-409 | Two new messages with different values for a column leave it different in either order |
| `StoreContents.BackfillValue` | apps/desktop/src-tauri/src/store/db.rs:669-701 | A backfill leaves each column of a known thread at its last non-empty value, else as it was, and adds no thread |
| `StoreContents.SaveExactly` | apps/desktop/src-tauri/src/store/db.rs:346-409 | A save changes nothing exactly when its id is known or the same text or sticker was sent in that thread within 15000 ms; otherwise it adds one row, and only the row of its thread changes: kind, title, avatar, unread and the later stamp |
| `StoreContents.RecallErases` | apps/desktop/src-tauri/src/store/db.rs:733-743 | An undo marks its row deleted, empties body, sticker and link, and touches nothing else |
| `StoreContents.RowColumns` | apps/desktop/src-tauri/src/store/db.rs:364-382 | After any run every column of a stored row: origin, content and quote are the message's own; body, sticker and link are empty and the row marked if and only if an undo followed; the icon is that of the last reaction that followed |
| `StoreContents.BackfillCounts` | apps/desktop/src-tauri/src/store/db.rs:687-700 | The number reported is that of the entries that say something about a known thread |
| `MessageStore.TextEchoesFound` | apps/desktop/src-tauri/src/store/db.rs:346-362 | The count query of outgoing texts is positive exactly when an echo row exists |
| `MessageStore.StickerEchoesFound` | apps/desktop/src-tauri/src/store/db.rs:477-500 | The count query of outgoing stickers is positive exactly when an echo row exists |
| `MessageStore.Db.UpsertThread` | apps/desktop/src-tauri/src/store/db.rs:384-409 | The thread row after an inserted message, fresh or in conflict |
| `MessageStore.Db.SaveMessageWithRich` | apps/desktop/src-tauri/src/store/db.rs:319-410 | Both tables after a text: nothing on an echo or a duplicate id, otherwise the row and its thread |
| `MessageStore.Db.SaveStickerMessageWithRich` | apps/desktop/src-tauri/src/store/db.rs:455-550 | The same for a sticker |
| `MessageStore.Db.ClearUnread` | apps/desktop/src-tauri/src/store/db.rs:704-713 | Only the unread count of that thread becomes zero |
| `MessageStore.Db.ApplyReaction` | apps/desktop/src-tauri/src/store/db.rs:716-731 | Only the reaction of that row changes; says whether there was one |
| `MessageStore.Db.MarkMessageDeleted` | apps/desktop/src-tauri/src/store/db.rs:733-743 | That row is marked deleted and loses body, sticker and link; says whether there was one |
| `MessageStore.Db.BackfillThreadIdentities` | apps/desktop/src-tauri/src/store/db.rs:669-701 | Known threads are enriched in order, empty strings skipped; the number of rows touched |
| `ChatView.RunTidy` | apps/mobile/src/lib/session-store.svelte.ts:814-927 | Over any run of appends, opened threads and reactions: message ids unique per thread, thread ids unique per list, equal outgoing messages more than 15000 ms apart |
| `ChatView.EchoAdoptsId` | apps/mobile/src/lib/session-store.svelte.ts:842-855 | An echo keeps length, order and every field but the id it adopts, and leaves the conversations alone |
| `ChatView.EchoIsOneMessage` | apps/mobile/src/lib/session-store.svelte.ts:836-857 | A sent message followed by its echo leaves one message |
| `ChatView.BumpedKeepsOthers` | apps/mobile/src/lib/session-store.svelte.ts:859-883 | A fresh message leaves every other conversation row in the list unchanged |
| `ChatHistory.RunCounts` | apps/mobile/src/lib/session-store.svelte.ts:830-889 | Along any run a thread gains one message for each append that is neither duplicate nor echo, and its unread count grows by those that count as unread |
| `ChatHistory.BumpedOrder` | apps/mobile/src/lib/session-store.svelte.ts:859-883 | A fresh message brings its thread to the front with its snippet and time, keeping kind and avatar; the other rows follow unchanged in order |
| `ChatEffects.AddedIff` | apps/mobile/src/lib/session-store.svelte.ts:836-857 | A message is added at the end of its thread if and only if no message there has its id, and it is not an outgoing message with an outgoing one within 15000 ms of the same sticker, or of the same text with no sticker on either |
| `ChatEffects.NotAdded` | apps/mobile/src/lib/session-store.svelte.ts:836-855 | A known id changes nothing; a repeated message gives its id to the first it repeats and changes nothing else |
| `ChatEffects.AddedLeaves` | apps/mobile/src/lib/session-store.svelte.ts:857-888 | An added message leaves other threads and directories alone, and opens its thread exactly when that was not listed and none is open |
| `ChatEffects.BumpedNames` | apps/mobile/src/lib/session-store.svelte.ts:859-883 | The row in front keeps kind and avatar of a listed thread and looks its title up in the directory of its kind; a new one has kind and title as given |
| `ChatEffects.OpenedExactly` | apps/mobile/src/lib/session-store.svelte.ts:904-927 | Opening lists a thread in front if it was not listed, named by the contacts, else by the given title or its id, and changes nothing else but the open thread |
| `ChatEffects.ReactedExactly` | apps/mobile/src/lib/session-store.svelte.ts:814-828 | A reaction puts its icon on the messages of that id in that thread and changes nothing else |
| `AccountSwitching.RunKeepsInv` | apps/mobile/src/lib/session-store.svelte.ts:343-462 | After any run rail ids equal bucket keys without repeats, a profile is shown exactly when an account is active, that account has a bucket, and shown threads, contacts and groups are the bucket's |
| `AccountSwitching.SwitchingIsLossless` | apps/mobile/src/lib/session-store.svelte.ts:396-456 | Leaving an account, any operations that do not reload or remove it, and coming back restores the whole view |
| `AccountSwitching.AwayKeepsBucket` | apps/mobile/src/lib/session-store.svelte.ts:433-456 | While an account is not active, its bucket keeps its content |
| `AccountSwitching.BackgroundLeavesView` | apps/mobile/src/lib/session-store.svelte.ts:538-562 | Hydrating, loading contacts for, adopting or logging out another account leaves view, profile and active account unchanged |
| `AccountEffects.ActivatedExactly` | apps/mobile/src/lib/session-store.svelte.ts:433-458 | What activating shows, saves and counts as read, and that nothing else changes |
| `AccountEffects.SwitchedExactly` | apps/mobile/src/lib/session-store.svelte.ts:396-399 | Nothing for the active or an unknown account, else the bucket is shown and the view saved |
| `AccountEffects.AdoptedExactly` | apps/mobile/src/lib/session-store.svelte.ts:373-386 | Bucket, profile and rail entry after adopting in the background; all else stays |
| `AccountEffects.AdoptedShows` | apps/mobile/src/lib/session-store.svelte.ts:373-387 | Adopting in the foreground shows the account with its new profile and saves the view |
| `AccountEffects.LoggedOutExactly` | apps/mobile/src/lib/session-store.svelte.ts:410-429 | Bucket and rail entry are gone, other buckets untouched; the first account left is shown as it was, or nothing |
| `AccountEffects.HydratedExactly` | apps/mobile/src/lib/session-store.svelte.ts:538-543 | Threads and conversations of that bucket are replaced, and shown if it is active; all else stays |
| `AccountEffects.ContactsLoadedExactly` | apps/mobile/src/lib/session-store.svelte.ts:551-560 | Contacts of that bucket are replaced, and shown if it is active; all else stays |
| `AccountEffects.AppendedToActiveExactly` | apps/mobile/src/lib/session-store.svelte.ts:891-901 | The active bucket takes the message with kind and title as shown, never as unread, and its threads and conversations are shown; all else stays |
| `AccountEffects.ReactedInActiveExactly` | apps/mobile/src/lib/session-store.svelte.ts:696-709 | The active bucket takes the reaction and its threads and conversations are shown; all else stays |
| `AccountEffects.ThreadOpenedExactly` | apps/mobile/src/lib/session-store.svelte.ts:904-927 | The active bucket opens the thread and it is shown; all else stays |
| `AccountEffects.ThreadSelectedExactly` | apps/mobile/src/lib/session-store.svelte.ts:570-577 | If the thread's first row counts unread messages, all its rows in the view count none; all else stays |
| `ReadMarks.ReadMarkKeptIff` | apps/mobile/src/lib/session-store.svelte.ts:570-577 | A thread is read; after any operations on any accounts that neither read it again nor remove its account, it still shows zero unread if and only if no nonzero count came back: that of the account's last reload, or without one the bucket's own, shown before the view was saved to the bucket |
| `ReadMarks.LastReadDecides` | apps/mobile/src/lib/session-store.svelte.ts:570-577 | The end of any run is decided by what follows the last reading and by the bucket's count at that time |
| `ReadMarks.OneVisitKeptIff` | apps/mobile/src/lib/session-store.svelte.ts:570-927 | While the account stays open and is not reloaded, a read thread stays read if and only if its bucket counted nothing unread or nothing was appended, no reaction given and no thread opened by id |
| `ReadMarks.ReadMarkIsLost` | apps/mobile/src/lib/session-store.svelte.ts:891-901 | Each single append (fresh, duplicate or echo), reaction or opening by id shows the bucket's count again |
| `ReadMarks.ReplyLosesReadMark` | apps/mobile/src/lib/session-store.svelte.ts:570-609 | Reading a thread with three unread messages and replying in that thread shows three unread again |
| `ReadMarks.RunFollows` | apps/mobile/src/lib/session-store.svelte.ts:433-577 | Along any run that keeps the account, the counts shown and stored for a thread are what mirroring, saving, reloading and reading make of them |
| `Accounts.SessionStore.SaveView` | apps/mobile/src/lib/session-store.svelte.ts:437-448 | The view goes back into the active account's bucket |
| `Accounts.SessionStore.Activate` | apps/mobile/src/lib/session-store.svelte.ts:433-456 | The view is saved to the old bucket and loaded from the new one, whose rail count is cleared; nothing for an unknown account |
| `Accounts.SessionStore.SwitchAccount` | apps/mobile/src/lib/session-store.svelte.ts:396-399 | Activates unless already active |
| `Accounts.SessionStore.PutBucket` | apps/mobile/src/lib/session-store.svelte.ts:375-379 | A new bucket for an unknown account, a new profile for a known one |
| `Accounts.SessionStore.AddOrUpdate` | apps/mobile/src/lib/session-store.svelte.ts:374-385 | The bucket and, once, the rail entry |
| `Accounts.SessionStore.AdoptAccount` | apps/mobile/src/lib/session-store.svelte.ts:373-387 | Creates or updates the bucket and its rail entry, then activates if asked |
| `Accounts.SessionStore.LogoutAccount` | apps/mobile/src/lib/session-store.svelte.ts:402-431 | Prunes bucket and rail entry; the first account left becomes active, or the view is cleared |
| `Accounts.SessionStore.UnlinkDevice` | apps/mobile/src/lib/session-store.svelte.ts:355-366 | Everything is reset |
| `Accounts.SessionStore.HydrateWriteBack` | apps/mobile/src/lib/session-store.svelte.ts:538-543 | The bucket takes threads and conversations; the view only when active |
| `Accounts.SessionStore.LoadContacts` | apps/mobile/src/lib/session-store.svelte.ts:551-560 | The bucket takes the contacts; the view only when active |
| `Accounts.SessionStore.AppendToActive` | apps/mobile/src/lib/session-store.svelte.ts:891-901 | The active bucket takes the message, with kind and title as the view has them and never as unread, and the view mirrors it |
| `Accounts.SessionStore.AppendToBucket` | apps/mobile/src/lib/session-store.svelte.ts:830-889 | Duplicate, echo or fresh: the bucket after each, and whether the thread opens |
| `Accounts.AccountData.Reconcile` | apps/mobile/src/lib/session-store.svelte.ts:836-855 | A duplicate changes nothing, an echo gives its id to the message it repeats; says whether the message was known |
| `Accounts.AccountData.BumpConversation` | apps/mobile/src/lib/session-store.svelte.ts:859-883 | The list after a fresh message; says whether the thread was listed |
| `Accounts.AccountData.Open` | apps/mobile/src/lib/session-store.svelte.ts:908-923 | The bucket's part of opening a thread |
| `Accounts.AccountData.ApplyReaction` | apps/mobile/src/lib/session-store.svelte.ts:814-828 | Only the messages of that id in that thread take the icon |
| `Accounts.SessionStore.ReactInActive` | apps/mobile/src/lib/session-store.svelte.ts:696-709 | The active bucket takes the reaction and the view mirrors it |
| `Accounts.SessionStore.OpenThread` | apps/mobile/src/lib/session-store.svelte.ts:904-927 | The thread exists, has a conversation, and is open in bucket and view |
| `Accounts.SessionStore.SelectThread` | apps/mobile/src/lib/session-store.svelte.ts:570-577 | The thread is open and read in the view only |
| `SseParser.DrainAppend` | crates/zca-cloud-client/src/lib.rs:186-200 | Draining a text extended at its end equals draining the text and then its leftover with the extension |
| `SseParser.FeedIsBatch` | apps/mobile/src-tauri/src/lib.rs:368-380 | For any text cut into any chunks, push-then-drain per chunk yields the events and the leftover of one drain of the whole |
| `SseParser.FeedReason` | apps/mobile/src-tauri/src/lib.rs:367-375 | The reason reported is stream-error exactly when a chunk failed to arrive |
| `SseParser.LeftoverIsPartial` | crates/zca-cloud-client/src/lib.rs:188-198 | The leftover never contains a blank line |
| `SseParser.StreamDelivers` | apps/server/src/routes.rs:1565-1587 | Any sequence of server frames, keepalive comments in between, cut into any chunks and lost anywhere: exactly the payloads of the whole frames arrive in order, and the buffer keeps exactly the part that arrived of the next one |
| `SseParser.WholeStreamDelivers` | apps/server/src/routes.rs:1565-1587 | When nothing is lost, all payloads arrive and nothing is left over |
| `SseParser.FrameDispatches` | apps/server/src/routes.rs:1569-1586 | Of a server frame the standard dispatches the data lines joined by newlines, and nothing of a comment or a frame without data |
| `SseParser.AgreesWithStandardIff` | crates/zca-cloud-client/src/lib.rs:191-197 | The client's events of a frame are those of the standard, whatever payloads parse to, if and only if the frame has at most one data line |
| `SseParser.StreamAgrees` | crates/zca-cloud-client/src/lib.rs:191-197 | Over any stream of frames with at most one data line the client and the standard deliver the same events |
| `SseParser.TwoLinePayloadIsLost` | crates/zca-cloud-client/src/lib.rs:191-197 | A payload printed on two lines is delivered by the standard and not by the client |
| `SseParser.PrefixDelivers` | crates/zca-cloud-client/src/lib.rs:186-200 | Draining any prefix of the rendered frames yields the events of the whole frames within it, and leaves exactly the part that arrived of the next one |
| `SseParser.ParseFrame` | crates/zca-cloud-client/src/lib.rs:191-197 | The loop over one frame's lines yields the parsed `data:` lines in order |
| `SseParser.DrainSseEvents` | crates/zca-cloud-client/src/lib.rs:186-200 | Events and remaining buffer are those of the recursive drain |
| `SseParser.StreamTask` | apps/mobile/src-tauri/src/lib.rs:364-385 | Emits connected, the payloads in order, then one disconnected with its reason |
| `CivilDate.CivilIsCalendar` | apps/desktop/src-tauri/src/config/logging.rs:155-166 | For every day number, negative ones included, the formula equals the calendar stepped day by day from 1970-01-01 |
| `CivilDate.CivilSuccessor` | apps/desktop/src-tauri/src/config/logging.rs:155-166 | One more day is the next Gregorian day, leap rule included |
| `CivilDate.CivilPredecessor` | apps/desktop/src-tauri/src/config/logging.rs:155-166 | One day less is the previous Gregorian day |
| `CivilDate.CivilIsValid` | apps/desktop/src-tauri/src/config/logging.rs:155-166 | The result is a valid date and its day number is the argument |
| `CivilDate.CivilRoundTrip` | apps/desktop/src-tauri/src/config/logging.rs:155-166 | Every valid date is the result for its day number, so the formula is a bijection |
| `CivilDate.CivilEpoch` | apps/desktop/src-tauri/src/config/logging.rs:155-166 | Day 0 is 1970-01-01 |
| `CivilDate.CivilMonotone` | apps/desktop/src-tauri/src/config/logging.rs:155-166 | Later days have later dates |
| `CivilDate.EraIsFloor` | apps/desktop/src-tauri/src/config/logging.rs:157 | The shifted truncating division is the floor, for negative days too |
| `CivilDate.YearBounds` | apps/desktop/src-tauri/src/config/logging.rs:158-160 | The year-of-era formula picks the year whose days contain the day of the era |
| `CivilDate.MonthBounds` | apps/desktop/src-tauri/src/config/logging.rs:161-163 | The month formula picks the month whose days contain the day of the year |
| `CivilDate.WidthSuffices` | apps/desktop/src-tauri/src/config/logging.rs:155-166 | In 64-bit arithmetic only the first addition can leave the range; the ranges of every later value |
| `SignIn.SingleUse` | apps/server/src/routes.rs:742-817 | In every interleaving of any number of requests, each link or code leads to at most one device, after one consume that found it unused and unexpired (a code with verified email), and a link's device belongs to the user of its email |
| `SignIn.RecoveryKeyAgreement` | apps/server/src/routes.rs:790-833 | In every interleaving a returned recovery key has its hash stored for that user and opens the stored wrapping to the data key the server wrapping opens to; at most one request carries a key for a user |
| `SignIn.GrantedIsStored` | apps/server/src/routes.rs:813-833 | In every interleaving a response that grants a device names a stored one, of that user, inserted by that request for the credential it consumed |
| `SignIn.CreationRaceIsLost` | apps/server/src/db.rs:332-345 | A request whose email was inserted meanwhile is refused by the unique column and writes nothing more |
| `SignIn.RunKeepsInv` | apps/server/src/routes.rs:406-430 | The invariant behind both over any run, with requests abandoned at any statement |
| `SignIn.UserRowsPersist` | apps/server/src/db.rs:316-347 | No later run changes a user row |
| `SignIn.InsertUserStatementOk` | apps/server/src/db.rs:332-346 | The inserted key columns answer to the key the creating request carries; emails stay unique |
| `SignIn.InsertDeviceKeepsInv` | apps/server/src/db.rs:444-461 | Inserting a device keeps the invariant: only the request that consumed the credential inserts, once |
| `SignInHandlers.AloneIsRun` | apps/server/src/routes.rs:735-834 | A handler run without interruption is a run of the interleaved model |
| `SignInHandlers.LinkVerifiedIffAlone` | apps/server/src/routes.rs:735-834 | The outcome of the handler, said once over the tables by cases, is exactly that of the request's statements executed alone |
| `SignInHandlers.CodeVerifiedIffAlone` | apps/server/src/routes.rs:398-501 | The same for redeeming a code |
| `SignInHandlers.OneDeviceGained` | apps/server/src/db.rs:444-461 | A granted sign-in adds exactly the one device row it names, which was not there before; a refused one adds none |
| `SignInHandlers.RecoveryKeySignsIn` | apps/server/src/routes.rs:758-812 | A first sign-in returns a key; after any later changes to the tables that key with a fresh link signs in to the same user without a new key, and the first link is refused |
| `SignInHandlers.ServerDb.MagicLinkIsValid` | apps/server/src/db.rs:152-164 | True exactly when the link of that email is unused and unexpired |
| `SignInHandlers.ServerDb.UserIdByEmail` | apps/server/src/db.rs:166-172 | The user of that email, if any |
| `SignInHandlers.ServerDb.ConsumeMagicLink` | apps/server/src/db.rs:135-150 | Marks a usable link used and changes nothing else; otherwise unauthorized and nothing changes |
| `SignInHandlers.ServerDb.ConsumeOAuthDesktopCode` | apps/server/src/db.rs:279-298 | Marks a usable code used and returns its claim; otherwise unauthorized and nothing changes |
| `SignInHandlers.ServerDb.UpsertOAuthIdentity` | apps/server/src/db.rs:232-258 | The identity points to the user; nothing else changes |
| `SignInHandlers.ServerDb.GetOrCreateUser` | apps/server/src/db.rs:316-347 | The user of that email, unchanged, or a new row with the given keys; says which |
| `SignInHandlers.ServerDb.InsertDevice` | apps/server/src/db.rs:444-461 | The devices gain one row under an id not used before; no other table changes |
| `SignInHandlers.ServerDb.VerifyMagicLink` | apps/server/src/routes.rs:735-834 | Response and every table by cases: refused without a trace; signed up with user, device and recovery key; asked for the key; signed in with a device; or refused with the link used up |
| `SignInHandlers.ServerDb.OAuthDeviceUserId` | apps/server/src/routes.rs:465-501 | The claimed user, else by identity, else by email, else a new one with its recovery key |
| `SignInHandlers.ServerDb.VerifyOAuthDesktopCode` | apps/server/src/routes.rs:398-447 | Response and every table by cases: the code is used up whatever follows, the identity leads to the user found or created, and a device is stored if its name is valid |
| `Crypto.UnwrapIff` | apps/server/src/crypto.rs:103-113 | A data key is unwrapped exactly with a nonce of 12 bytes and 32 bytes opened under the key derived from the recovery key |
| `Crypto.UnwrapForServerIff` | apps/server/src/crypto.rs:122-132 | The same under the key derived from the seed |
| `Crypto.StoredKeysUnlock` | apps/server/src/crypto.rs:96-132 | The stored nonce followed by the wrapped key opens under the recovery key to the data key that the server wrapping opens to under the seed; the hash is that of the key |
| `RateLimit.WindowBound` | apps/server/src/routes.rs:680-709 | Over runs of any length, no closed window holds more than limit + k - 1 links of an email when at most k of its own requests are between count and insert, whatever other emails do; the limit itself when they are handled one at a time |
| `RateLimit.BoundIsTight` | apps/server/src/routes.rs:680-709 | With k concurrent requests that bound is reached |
| `RateLimit.RunKeepsInv` | apps/server/src/db.rs:300-314 | Links in the window ending now plus requests about to insert never exceed the bound |
| `RateLimit.LetThroughIff` | apps/server/src/routes.rs:682-701 | A request is let through if and only if fewer links of its email than the limit were stored within the window |
| `RateLimit.LetThroughAfterWindow` | apps/server/src/routes.rs:682-701 | Once all its links have left the window, an email is let through again |
| `RateLimit.CountSinceIs` | apps/server/src/db.rs:300-314 | The count is the number of links of the email created at or after the time |
| `RateLimit.InsertedExactly` | apps/server/src/db.rs:120-133 | An insert stores one link of that email, stamped now, and keeps the others |
| `RateLimit.MagicLinks.CountMagicLinksSince` | apps/server/src/db.rs:300-314 | The number of links of the email created at or after the given time |
| `RateLimit.MagicLinks.RequestMagicLink` | apps/server/src/routes.rs:675-709 | Handled alone: refused at the limit with nothing stored, otherwise one link is stored |
| `CallbackRequest.MagicLinkDeliveredIff` | apps/desktop/src-tauri/src/command/magic_link_callback.rs:67-150 | For the request of a printed callback URL with any header lines before and after its last Origin line: the app is handed exactly the printed values if and only if they are trimmed, not empty, the base a trimmed http(s) URL, and that line names the base's origin |
| `CallbackRequest.OAuthDeliveredIff` | apps/desktop/src-tauri/src/command/magic_link_callback.rs:67-150 | The same for the OAuth callback |
| `CallbackRequest.HandledExactly` | apps/desktop/src-tauri/src/command/magic_link_callback.rs:67-150 | Every well-formed request of any method and header lines: 204 or 403 for OPTIONS, 405 for other methods, 404 without a payload, 403 for another origin, else the payload is handed over |
| `CallbackRequest.NoOriginRefused` | apps/desktop/src-tauri/src/command/magic_link_callback.rs:225-228 | Without an Origin line nothing is handed over |
| `CallbackRequest.LastOriginIs` | apps/desktop/src-tauri/src/command/magic_link_callback.rs:160-169 | Of several Origin lines the last counts; there is no origin if and only if no line is one |
| `CallbackRequest.OriginHeaderIff` | apps/desktop/src-tauri/src/command/magic_link_callback.rs:162-168 | A line is an Origin header exactly when its name, in any case, is `origin`; its value loses whitespace and trailing slashes |
| `CallbackRequest.RequestParsed` | apps/desktop/src-tauri/src/command/magic_link_callback.rs:155-175 | A request line and any header lines parse to the method, the payload of the target and the last origin |
| `CallbackRequest.FirstTwoWordsIs` | apps/desktop/src-tauri/src/command/magic_link_callback.rs:157-159 | Method and path are the first two words, whatever whitespace stands around them |
| `CallbackRequest.NoTwoWords` | apps/desktop/src-tauri/src/command/magic_link_callback.rs:157-159 | A first line of fewer than two words is no request |
| `CallbackRequest.AllowedIff` | apps/desktop/src-tauri/src/command/magic_link_callback.rs:225-230 | A header value is allowed if and only if, stripped of whitespace and trailing slashes twice, it is the origin of the base URL |
| `CallbackRequest.BareNamesIff` | apps/desktop/src-tauri/src/command/magic_link_callback.rs:225-230 | A header as browsers write it is allowed if and only if it is the derived origin letter by letter |
| `CallbackRequest.OwnNameIff` | apps/desktop/src-tauri/src/command/magic_link_callback.rs:225-239 | The derived origin is allowed as a header if and only if no whitespace is at its ends |
| `CallbackRequest.OriginOfUrl` | apps/desktop/src-tauri/src/command/magic_link_callback.rs:232-239 | The origin of any URL is its scheme and host, whatever path follows; a URL without a host has none |
| `CallbackRequest.NoSchemeNoOrigin` | apps/desktop/src-tauri/src/command/magic_link_callback.rs:232-239 | A URL without a scheme has no origin |
| `CallbackRequest.OtherSpellingRefused` | apps/desktop/src-tauri/src/command/magic_link_callback.rs:112-119 | When a browser spells the origin of a configured base URL differently, its page is answered 403 although the values parse |
| `CallbackRequest.CapitalHostRefused` | apps/desktop/src-tauri/src/command/magic_link_callback.rs:112-119 | So for a base URL with a capital letter in the host |
| `CallbackUrl.MagicLinkRoundTrip` | apps/server/src/routes.rs:204-212 | Parsing the printed magic-link target returns the same three values if and only if they are trimmed, not empty, and the base is a trimmed http(s) URL |
| `CallbackUrl.OAuthRoundTrip` | apps/server/src/routes.rs:520-535 | The same for the OAuth target |
| `CallbackUrl.MagicLinkParsed` | apps/desktop/src-tauri/src/command/magic_link_callback.rs:177-195 | What the parser makes of any printed magic-link target: every value arrives before trimming as it was |
| `CallbackUrl.OAuthParsed` | apps/desktop/src-tauri/src/command/magic_link_callback.rs:195-203 | The same for the OAuth target |
| `CallbackUrl.MagicLinkParams` | apps/desktop/src-tauri/src/command/magic_link_callback.rs:206-214 | Each name of the printed query finds its own value and any other name none |
| `CallbackUrl.ParseRequest` | apps/desktop/src-tauri/src/command/magic_link_callback.rs:155-175 | The loop keeps the last Origin header; no request without a line of two words |
| `CallbackUrl.FindParamIs` | apps/desktop/src-tauri/src/command/magic_link_callback.rs:206-214 | A name has the value of the first part with that name that decodes |
| `CallbackUrl.NoParamNone` | apps/desktop/src-tauri/src/command/magic_link_callback.rs:206-214 | A name has no value if no part has it and decodes |
| `CallbackUrl.PrintedTargets` | apps/server/src/routes.rs:206-212 | The printed targets as text, with the routes and parameter names of the landing pages |
| `CallbackUrl.NormalIff` | apps/desktop/src-tauri/src/command/magic_link_callback.rs:216-223 | The base URLs left alone are the trimmed http(s) URLs without trailing slash |
| `CallbackUrl.DerivedOriginAllowedIff` | apps/desktop/src-tauri/src/command/magic_link_callback.rs:225-239 | The origin derived from a base URL is allowed for it if and only if no whitespace is at its ends |
| `Utf8.DecodesIff` | apps/desktop/src-tauri/src/command/magic_link_callback.rs:206-214 | Bytes decode to a string if and only if they are its encoding: no overlong forms, no surrogates, no stray bytes |
| `Utf8.FirstEscape` | apps/desktop/src-tauri/src/command/magic_link_callback.rs:206-214 | An escape of two hexadecimal digits stands for their byte, whatever follows |
| `Utf8.NothingEscaped` | apps/desktop/src-tauri/src/command/magic_link_callback.rs:206-214 | Text without an escape stands for itself, stray percent signs included |
| `Utf8.HexValueIff` | apps/desktop/src-tauri/src/command/magic_link_callback.rs:206-214 | Hexadecimal digits count in either case |
| `Text.TrimIs` | apps/desktop/src-tauri/src/command/magic_link_callback.rs:179-180 | Trimming removes all whitespace at both ends and nothing else |
| `Text.TrimEndMatchesIs` | apps/desktop/src-tauri/src/command/magic_link_callback.rs:216-217 | All trailing copies of a character are removed and nothing else |
| `Utf8.PercentRoundTrip` | apps/server/src/routes.rs:206-212 | Decoding undoes percent-encoding for every string |
| `Utf8.PercentEncodedIsSafe` | apps/server/src/routes.rs:206-212 | Encoded text holds unreserved characters and percent signs only |
| `Utf8.RoundTrip` | apps/desktop/src-tauri/src/command/magic_link_callback.rs:206-214 | UTF-8 decoding undoes encoding for every string |
| `Redact.RedactsAlikeIff` | apps/desktop/src-tauri/src/config/redact.rs:46-73 | Two documents redact to the same document if and only if they differ only inside values under secret keys with equal measured length there |
| `Redact.UnchangedIff` | apps/desktop/src-tauri/src/config/redact.rs:46-62 | A document is unchanged if and only if every secret key outside other secret values holds the self-describing placeholder |
| `Redact.NoSecretKeyUnchanged` | apps/desktop/src-tauri/src/config/redact.rs:46-62 | A document without a secret key at any depth is unchanged |
| `Redact.FollowRedacted` | apps/desktop/src-tauri/src/config/redact.rs:46-62 | At every path without secret keys the output holds the redaction of the input's value; a secret key at its end leads to the placeholder and further steps nowhere |
| `Redact.SecretKeyIff` | apps/desktop/src-tauri/src/config/redact.rs:18-37 | Case does not matter, and nine of the twelve markers decide |
| `Redact.MaskInjective` | apps/desktop/src-tauri/src/config/redact.rs:40-42 | Placeholders of different lengths differ |
| `Redact.SecretField` | apps/desktop/src-tauri/src/config/redact.rs:50-52 | Under a secret key stands the placeholder with the bytes of a text, the items of a list, the fields of an object or the printed length of anything else |
| `Redact.DecimalIs` | apps/desktop/src-tauri/src/config/redact.rs:40-42 | The length is printed in base ten without leading zeros |
| `Redact.CaseDoesNotMatter` | apps/desktop/src-tauri/src/config/redact.rs:34-37 | Keys that agree up to ASCII case are both secret or both not |
| `Redact.ContainsIff` | apps/desktop/src-tauri/src/config/redact.rs:36 | A marker counts anywhere in the key |
| `Redact.SelfMask` | apps/desktop/src-tauri/src/config/redact.rs:40-42 | Exactly one text is its own placeholder |
| `Redact.RedactJson` | apps/desktop/src-tauri/src/config/redact.rs:46-62 | The loops over fields and items build the redacted document |

## Left out

- `session.svelte.ts`, the desktop twin of the store and controller: the same machine with the credentials cleared inside `stop`; a second copy would add nothing harder.
- Network, Tauri, axum, SQL engines, keyring, mail and the chat protocol library: only their effect is modelled (an event delivered, a call replying, an atomic statement). The text of an event-stream frame is the standard's rendering.
- Cipher, key derivation, password hash and token hash: abstract functions. A credential is named by the hash it is stored under, so a hash collision is not modelled.
- UTF-8 decoding per network chunk: chunks are text already decoded. A character split across two chunks is replaced, as lossy decoding does, before the parser sees it.
- 64-bit overflow of timestamps and counters in the stores and the throttle.
- Clock, randomness and identifiers: parameters (`now`, `draw`) or counters that never repeat.
- Audit events, device tokens, response bodies and display labels (`detail`, `label`).
- `listen` failing, and other tasks running between two handlers of the same event.
- `register_device`, the hosted QR flow, presence and synchronisation endpoints.
- `remove` and `forget` are one step; `ReserveSend` is the lookup and the reservation with nothing in between. Slots under any order of reservations and forgets are covered by the scheduling lemmas.
- Normalising an email again when a code is redeemed: the code's email was normalised when it was issued.
- Attachments, recent stickers, thread caches and account rows of the message store; `load_recent_messages` and its order.
- `hydrateCloudHistory` before its write-back (fetching, sorting) and a write-back into a bucket that was replaced while fetching.
- The fields of the visible view and of a bucket are one record each; drafts, search text and navigation are not modelled.
- `redact_str` and the free-text masking behind it; a JSON number is its printed text.
- Requests longer than the read buffer, and the loopback server's timeouts.
- `current_date` and `current_timestamp`: fixed-width printing of the date and of the seconds of the day.
- CivilDate.CivilIsCalendar: over unbounded integers; `CivilDate.WidthSuffices` says when 64-bit arithmetic agrees.
- StoreHistory.DeliveryConverges: does not equate a thread's kind, title and avatar; `StoreContents.ColumnConvergesIff` says when they agree.
