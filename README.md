# tforward: album batching and the recipient store, in Dafny

tforward relays posts from one source channel to a set of subscriber chats.
This project models the two stateful parts of the bot as sequential state
machines, with time passed in as a number of seconds:

- `MessageSender` (`message_sender.dfy`) is the album batcher. Album messages
  come off a queue into a send plan, a map from media-group id to the group's
  source chat, its message ids in arrival order and the time of its latest
  message. A tick runs each time the queue is found empty. It forwards every
  group that has been quiet for `SendDelaySeconds` (10) to every recipient and
  then evicts those groups; it leaves every other group alone. The HashMap's
  iteration order is a nondeterministic choice (`:|`). The tick returns the
  forwards it would issue and the groups it sent, in the order it took them.
  `Fanout` states what that forward list is for a given order.
- `Settings` (`settings.dfy`) is the recipient store: a `loaded` flag, the
  cached recipient list and the settings file. The file is abstract: `Absent`,
  `Valid(list)` or `Malformed` (exists but cannot be read or decoded). Load is
  idempotent. Add is deduplicating. Remove is a filter. Every add and remove
  rewrites the file from the cache. How a write turns out is a parameter
  (`WriteOutcome`). `Accessor.constructor` covers `Accessor::new`,
  `SettingsCache::new` and `Settings::new` (settings.rs:34-42, 135-148).

The tick reads the recipients through `Accessor.GetSettings` once for each
quiet group, as the source does. In a sequential run only that first read can
fail: once the store is loaded, reads always succeed. So a failed tick has
issued no forwards and leaves the plan as it was.

The code does not sort an album's ids; they are forwarded in arrival order
(message_sender.rs:90, 139), and the model forwards them in the same order:
`AlbumScenario` delivers ids 5, 3, 4 as `[5, 3, 4]`.

## Model

| member | source | states |
|---|---|---|
| `MessageSender.MessageSender.constructor` | src/bot/message_sender.rs:67-75 | a new sender starts with an empty send plan over the given store |
| `MessageSender.MessageSender.Ingest` | src/bot/message_sender.rs:80-94 | the group's entry is created from the message's chat if absent (`MediaGroupInfo::new`, lines 35-43); its timestamp becomes `now`; the id is appended at the end (an absent group ends up with `[id]`); an existing group keeps its `from`; every other group is unchanged |
| `MessageSender.IngestAllCollects` | src/bot/message_sender.rs:80-94 | after any run of messages with no tick between, each group holds its earlier ids followed by exactly the ids that arrived for it, in arrival order, with nothing lost or doubled; a group exists iff it existed before or got a message; an open group keeps its source chat |
| `MessageSender.MessageSender.Tick` | src/bot/message_sender.rs:106-175 | groups are sent once each, and only quiet ones; the forwards are `Fanout` of the sent groups over the recipients read from the store; on success the sent groups are exactly the quiet ones and the plan becomes `Remaining` (quiet groups gone, others with their ids and timestamps unchanged); the tick fails iff some group is quiet and the store is unloaded with an unreadable file, and then the plan is unchanged and nothing was sent; the store moves by at most one load |
| `MessageSender.MessageSender.Scan` | src/bot/message_sender.rs:107-164 | the scan over the plan: the list of groups to remove holds exactly the quiet groups, each once, and the forwards are their fan-out in that order; it stops at the first failed read of the recipients and then has nothing to remove |
| `MessageSender.MessageSender.SendGroup` | src/bot/message_sender.rs:122-144 | sending one quiet group reads the recipients (loading the store if needed) and yields one forward per recipient; a failed read yields no forwards and the load error |
| `MessageSender.MessageSender.ForwardToAll` | src/bot/message_sender.rs:126-144 | the spawn loop issues, for each recipient in order, one forward carrying the group's source chat and its full id list |
| `MessageSender.MessageSender.Evict` | src/bot/message_sender.rs:168-172 | the removal loop deletes exactly the listed groups and leaves every other entry unchanged |
| `MessageSender.ScanSkip` | src/bot/message_sender.rs:116-120 | a group that is not yet quiet is skipped without being marked for removal |
| `MessageSender.ScanTake` | src/bot/message_sender.rs:163 | a quiet group is marked for removal once, and the list of marked groups stays free of duplicates |
| `MessageSender.ScanDone` | src/bot/message_sender.rs:112-164 | after the whole plan is visited, the marked groups are exactly the quiet ones |
| `MessageSender.Fanout` | src/bot/message_sender.rs:112-164 | a tick that sends k groups to n recipients issues exactly k * n forwards |
| `MessageSender.FanoutAt` | src/bot/message_sender.rs:124-144 | forward number i * n + j is the i-th sent group's forward to the j-th recipient, with that group's `from` and its full id list in arrival order |
| `MessageSender.FanoutOnlySent` | src/bot/message_sender.rs:124-144 | every forward goes to a recipient and carries the chat and ids of a sent group, so a group that is not sent gets no forward |
| `MessageSender.TickSplitsPlan` | src/bot/message_sender.rs:116-120 | every group is either quiet and evicted, or not quiet and kept with its chat, ids and timestamp unchanged; a tick only removes keys |
| `MessageSender.NotSentTwice` | src/bot/message_sender.rs:168-172 | a later tick cannot send again a group that an earlier tick sent, unless a new message reopens it |
| `MessageSender.SplitAcrossTick` | src/bot/message_sender.rs:116-120 | two messages of one group with a tick between them that finds the group quiet are two units: the first tick evicts the group, and the second message opens a fresh entry holding only its id |
| `MessageSender.StopAt` | src/bot/message_sender.rs:78-103 | the loop's stopping turn is the first at which the queue is closed at the loop test or reports disconnected |
| `MessageSender.MessageSender.Run` | src/bot/message_sender.rs:77-104 | the loop runs up to the first closed or disconnected turn; each empty poll triggers exactly one tick; a run with no tick ingests its messages in order and forwards nothing, whatever its clock does; the clock is constrained only at the ticks the loop runs before it stops, each of which must be no earlier than any message received before it and any timestamp in the starting plan, so that the subtraction at line 116 is defined; ticks may step back against earlier ticks |
| `MessageSender.AlbumScenario` | src/bot/message_sender.rs:80-172 | messages 5, 3, 4 of album "A" within the delay: a tick before the delay forwards nothing; the first tick after it forwards the album once, as `[5, 3, 4]`, and empties the plan |
| `Settings.Accessor.constructor` | src/bot/settings.rs:34-42 | a new store is not loaded and holds an empty list over the given file |
| `Settings.Accessor.Load` | src/bot/settings.rs:100-132 | a loaded store is left as it is; otherwise an absent file gives the empty list, a valid file gives its list, and both mark the store loaded; an unreadable file returns an error and leaves the flag false and the list unchanged |
| `Settings.Accessor.GetSettings` | src/bot/settings.rs:45-51 | returns the cached list if already loaded, else the result of loading the file; on success the store is loaded and the result equals the cache |
| `Settings.Accessor.Flush` | src/bot/settings.rs:90-97 | a write that goes through makes the file exactly the cached list; a file that cannot be created is left as it was and reported; a write the serialiser sees fail leaves the file unreadable and is reported; a write lost when the unflushed `BufWriter` is dropped (line 94) leaves the file unreadable and still returns `Ok` |
| `Settings.Accessor.FlushChecked` | src/bot/settings.rs:90-97 | the corrected flush: it succeeds iff every byte reached the file, and then the file holds exactly the cached list; failures leave the file as it was or unreadable |
| `Settings.Accessor.AddRecepient` | src/bot/settings.rs:54-66 | the list is unchanged if it holds an equal entry, otherwise `r` is appended; a list without duplicates stays so; `loaded` never changes; a write that goes through leaves the file holding exactly the new list; the result and the file follow `Flush`, so a write lost on drop returns `Ok` over an unreadable file; a failed write keeps the in-memory change |
| `Settings.Accessor.RemoveRecepient` | src/bot/settings.rs:69-87 | the list becomes `Removed(old, r)`, so no entry equals `r`; removing an absent recipient leaves the list unchanged and succeeds when the write does; `loaded` never changes; a write that goes through leaves the file holding exactly the new list; the result and the file follow `Flush`, as for the add |
| `Settings.Accessor.AddRecepientLoaded` | src/bot/settings.rs:54-66 | the corrected add: it loads first, so from an unloaded store over a readable file (absent or valid) the cache becomes the file's list with `r` added and every persisted recipient is kept; an unreadable file is reported and changes nothing; it flushes with `FlushChecked`, so it succeeds iff the write goes through, and then the file holds exactly the new cache |
| `Settings.Removed` | src/bot/settings.rs:72-80 | the filter is never longer than its input, keeps only entries of the input, and keeps none equal to `r` |
| `Settings.RemovedCount` | src/bot/settings.rs:72-80 | remove drops every copy of `r` and keeps every other entry exactly as many times as it occurred |
| `Settings.RemovedConcat` | src/bot/settings.rs:72-80 | remove distributes over concatenation, so the entries it keeps stay in their relative order |
| `Settings.RemovedAbsent` | src/bot/settings.rs:72-86 | removing a recipient that is not present leaves the list unchanged |
| `Settings.RemovedNoDuplicates` | src/bot/settings.rs:72-80 | remove keeps a duplicate-free list duplicate-free |
| `Settings.AddedSpec` | src/bot/settings.rs:57-59 | add leaves the list as it is if it holds `r`, else appends `r` at the end; `r` is present afterwards; a duplicate-free list stays duplicate-free |
| `Settings.AddedIdempotent` | src/bot/settings.rs:57-59 | adding the same recipient twice is the same as adding it once |
| `Settings.SubscribeScenario` | src/bot/settings.rs:54-87 | with no file: add {100, none} gives one entry; adding it again still gives one; removing it gives none; the file then holds the empty list |
| `Settings.LostSubscriberScenario` | src/bot/settings.rs:54-66 | as written, a subscribe before the first load rewrites a file holding another subscriber with only the newcomer, and the next load returns only the newcomer |
| `Settings.KeptSubscriberScenario` | src/bot/settings.rs:54-66 | with the corrected add, the same subscribe leaves the file and the store holding both subscribers |
| `Settings.SwallowedWriteScenario` | src/bot/settings.rs:90-97 | as written, a subscribe over no file whose buffered bytes are lost on drop returns `Ok`, leaves the file unreadable, and a restarted store then fails to load |
| `Settings.ReportedWriteScenario` | src/bot/settings.rs:90-97 | with the corrected add and flush, the same lost write is reported as a flush error |

## Left out

- Concurrency: the tokio `Mutex` and `RwLock`, the `JoinSet` tasks and the double-checked locking in `load`. Each operation is one atomic sequential step. The second `loaded` check in `load` is the same as the first once nothing runs in between.
- `PAUSE_DURATION` (5 s): the sleep after a tick appears only as the time of the next turn; nothing depends on its length.
- The clock (`seconds_since_unix_epoch`): replaced by a `now` argument. `MediaGroupInfo::new` reads the clock again; the model uses the same `now`, and line 89 overwrites that timestamp anyway. The clock may step back between turns. `Run` asks only that each tick it runs before stopping is no earlier than the messages received before it and the timestamps of the starting plan: this keeps every group's timestamp at most the tick's time, which is enough for the subtraction at line 116 (it asks slightly more than that: a message whose group an intermediate tick already evicted still bounds later ticks).
- MessageSender.MessageSender.Tick: requires every timestamp in the plan to be at most `now`. The `u64` subtraction at line 116 would panic (debug) or wrap (release) otherwise; wrap-around is not modelled.
- Outcomes of the remote forward calls: the model returns the forward requests instead. Success or failure is only logged (lines 146-161). The join loop also stops early when a task panics; that is not modelled.
- A recipient's destination is the whole `Recepient`. The `map(ChatId)` at line 128 does not type-check against `Vec<Recepient>`, and `thread_id` threading is not modelled.
- JSON encoding and file I/O: the file is the abstract `Disk`. A failed `try_exists` or `open` counts as `Malformed`. The file path of `Accessor::new` is not modelled.
- Cross-group order: the order in which a tick takes the groups is chosen nondeterministically. No delivery order between groups is claimed.
- MessageSender.MessageSender.Run: runs over a finite list of turns, not an unbounded loop, and states what it ingests and forwards only for a run with no tick. Each tick's forwards are stated by `Tick`.
- `MessageInfo::new` (message_sender.rs:178-186) is the `MessageInfo` datatype's own constructor.
- `remove_recepient` has the same missing load and the same unchecked flush as `add_recepient` (see Findings). Only the add has a corrected version.
- src/bot/handler.rs (single-post fan-out, the subscribe command), src/bot.rs (configuration, webhook, dispatcher), src/telemetry.rs and src/main.rs are not part of this model. They are plumbing over the messaging and telemetry libraries.

## Findings

| source | as written | input that shows it | evidently intended | confidence | as-written member | corrected member |
|---|---|---|---|---|---|---|
| src/bot/settings.rs:54-66 | `add_recepient` changes and flushes the cache without loading it first, so before the first `get_settings` it rewrites the file from the empty initial list | after a restart the file holds subscriber a; the first event is a subscribe from b, before any channel post: the file becomes `[b]`, and the next load returns `[b]` only | load before changing the cache, so the file becomes `[a, b]` | medium; not executed | `Settings.LostSubscriberScenario` | `Settings.Accessor.AddRecepientLoaded` |
| src/bot/settings.rs:90-97 | `flush` hands the `BufWriter` to `serde_json::to_writer` by value and never calls `flush` on it; the writer's drop writes out the buffered bytes and discards any error | a list whose JSON fits in the 8 KiB buffer, with the disk full: `File::create` truncates the file, the write in the drop fails, `flush` and so `add_recepient` return `Ok(())`, and the next load fails on the empty file | flush the writer explicitly and propagate its error, so `Ok` means the file holds the list | medium; not executed | `Settings.SwallowedWriteScenario` | `Settings.Accessor.FlushChecked` |
