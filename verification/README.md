# syncpond replication engine: a verified model

The syncpond server keeps rooms of versioned key/value data, changes them by line commands
(optionally grouped in transactions), and streams every change to subscribers. This project models
that engine in Dafny and proves what a subscriber may rely on.

- `Data`, `NestedMaps`, `WriteLog`: values, container -> key maps, and the log of accepted writes with
  what the store keeps of it (an index of last writes) and the two views computed from that index.
- `RoomModel`, `RoomStore`: one room as log plus transaction buffer; the class that stores it as nested maps
  with key versions, a counter and a buffer. Its invariant is that the maps are the index of a ghost log.
- `RoomLaws`: which operations of a room are accepted and what they leave, and how its reads fit together.
- `AppModel`, `AppStore`: the table of rooms, as values and as a class.
- `RateLimiter`: the sliding-window limiter, the limiter that forgets nothing, and the class.
- `HubModel`, `Fanout`: fan-out steps on values; the hub class with one bounded channel object per client.
- `DeliveryRate`: hub and limiter together over a run.
- `Tokenizer`, `Decimal`, `Utf8`, `Commands`: command lines, their grammar and round trips, and the command arms.
- `CommandLaws`: what each command does to the rooms, answers and announces, and how bad lines are refused.
- `Mirror`, `Resume`: what a client knows from a snapshot and events, and from a delta after a cut, over every run
  of a room: transactions aborted, updates withheld, and clients joining inside a transaction included.
- `ServerModel`, `SystemLaws`, `SystemRates`, `Server`: the whole system, one command at a time; what each of its
  steps does to the hub and to one client; the same system with its clock and limiters; and the command loop.

Findings that the statements make precise:

- SET and DEL inside a transaction are broadcast at once. A mirror therefore equals the snapshot the room
  would have if the buffer were committed now. Over a run that loses nothing it always does; over any run it does
  exactly when the client was told the value of every key that an abort, a withheld update or a late join left
  astray (`MirrorInvariant`). `AbortKeepsMirrorIff`, `JoinInsideIff` and `SkipKeepsStepIff` say when one such event
  is harmless, and `AbortedRunFails`, `JoinInsideFails` and `SkippedRunFails` give runs where it is not.
- Resuming from a delta gives what the client was told up to the cut followed by everything committed since
  (`ResumeMeaning`), and `ResumeIff` says when that is the room's snapshot. With a transaction still open it can
  fail (`ResumeFailsInsideTransaction`).
- The handshake takes the snapshot first and reads the counter later. A write in between is lost, and resuming does
  not bring it back (`CounterReadLateLosesWrites`). The claims about subscribers are stated for handshakes with
  any commands in between.
- Container `"*"` bypasses the container filter and the pair `"*","*"` turns into a counter event. Mirror claims
  are stated for every run with that container left aside, and `WriteKeepsStepIff` says exactly which single
  writes keep a mirror in step.
- `ROOM.DELETE` with a quoted room id deletes the room but leaves its clients in the hub
  (`DeletionIsCleanedIff`, `QuotedDeletionIsNotCleaned`).
- Late clock readings break the full-window bound of the limiter. Intervals of a length are safe exactly when that
  length and the lateness together fit into the window (`SafeLengthIff`; `FullWindowFailsUnderSkew` is an instance).
- The protocol document (`spec/shared/client-protocol.md:98`) says that DEL is announced with `deleted: true`; the
  code announces a null value, and no client is ever sent an event that says "deleted"
  (`NoDeletedEventIsSent`, `DeletionIsAnnouncedAsNull`). The model follows the code.

## Model

| member | source | states |
|---|---|---|
| WriteLog.LookupIndex | syncpond-server/src/state.rs:186-195 | a stored entry exists exactly for keys the log writes; its value is the last write's, its version that write's 1-based position |
| WriteLog.SnapshotIsReplay | syncpond-server/src/state.rs:454-462 | the snapshot loop's result is the replay of all visible committed writes |
| WriteLog.DeltaIsSuffixReplay | syncpond-server/src/state.rs:480-504 | testing key versions selects exactly the writes after the given counter, and the early return agrees with the loop |
| WriteLog.VersionsAreDistinct | syncpond-server/src/state.rs:186-187 | key versions lie in 1..counter and no two keys share one |
| WriteLog.Accounting | syncpond-server/src/state.rs:263-270 | container_count <= fragment_count <= room_counter, and fragment_count is the number of keys ever written |
| WriteLog.IndexContainers | syncpond-server/src/state.rs:188-195 | a container exists exactly when some write names it, and none is empty |
| RoomModel.CatchUp | syncpond-server/src/state.rs:472-510 | a snapshot overlaid with the later delta since any counter up to its own is the later snapshot, for every run and container set |
| RoomModel.DeltasCompose | syncpond-server/src/state.rs:487-504 | consecutive deltas overlay to the one delta over both stretches |
| RoomModel.DeltasShrink | syncpond-server/src/state.rs:487-504 | a delta since a later counter is a sub-map of one since an earlier counter |
| RoomModel.CommitMeaning | syncpond-server/src/state.rs:401-438 | committing n operations raises the counter by n, gives touched keys base + index of their last operation, and keeps all other entries |
| RoomModel.AbortRestores | syncpond-server/src/state.rs:441-446 | begin, any SET/DEL, abort gives back the room exactly |
| RoomModel.Isolation | syncpond-server/src/state.rs:181-184 | from begin until end or abort, fragment, version, info, snapshot and delta reads never change |
| RoomModel.TransactionIsDirectIff | syncpond-server/src/state.rs:420-433 | a committed transaction equals running its operations directly if and only if every DEL finds its container |
| RoomLaws.AcceptedIff | syncpond-server/src/state.rs:390-446 | an operation is accepted exactly if no transaction is open (begin), one is open (end), or, for a DEL, one is open or the container is stored; a refused one changes nothing and names the reason |
| RoomLaws.TransactionEffect | syncpond-server/src/state.rs:390-446 | an accepted begin leaves an empty buffer, an end moves the buffer to the log, an abort drops it |
| RoomLaws.WriteEffect | syncpond-server/src/state.rs:171-225 | an accepted SET or DEL gives its key the value or null, keeps every other key, and stays in the buffer while a transaction is open |
| RoomLaws.BracketsAlternate | syncpond-server/src/state.rs:390-446 | over every run accepted openings and closings of transactions alternate, and one is open at the end exactly if the last was an opening |
| RoomLaws.FragmentIsStored | syncpond-server/src/state.rs:228-242 | GET answers a value and version exactly if they are stored and not null, and each of its three errors exactly for a null, a missing key, a missing container |
| RoomLaws.FragmentInViews | syncpond-server/src/state.rs:228-242 | a value that GET answers is in the snapshot of who may read it, and in a delta exactly if its version is newer |
| RoomLaws.ReadableContainers | syncpond-server/src/state.rs:454-455 | both views show the public container and the client's own, and nothing else |
| RoomLaws.InfoCounts | syncpond-server/src/state.rs:263-270 | the counts of ROOM.INFO are the containers ever written, the keys stored, and the length of the log |
| RoomStore.RoomState.SetFragment | syncpond-server/src/state.rs:178-197 | the stored maps stay the index of the log; the write goes to the buffer or to the end of the log |
| RoomStore.RoomState.DelFragment | syncpond-server/src/state.rs:202-224 | a tombstone is written, buffered inside a transaction, refused for an unknown container outside |
| RoomStore.RoomState.GetFragment | syncpond-server/src/state.rs:228-242 | the last write of the key and its position, with the three error cases told apart |
| RoomStore.RoomState.Info | syncpond-server/src/state.rs:263-271 | the summing loop counts each key ever written once |
| RoomStore.RoomState.TxBegin | syncpond-server/src/state.rs:393-397 | opens an empty buffer, or refuses when one is open |
| RoomStore.RoomState.TxEnd | syncpond-server/src/state.rs:404-437 | the drain loop appends the buffer to the log in order and keeps the maps its index |
| RoomStore.RoomState.TxAbort | syncpond-server/src/state.rs:443-445 | drops the buffer, also when none is open |
| RoomStore.RoomState.Snapshot | syncpond-server/src/state.rs:449-468 | the nested loops return the replay of the visible log with the counter |
| RoomStore.RoomState.Delta | syncpond-server/src/state.rs:472-510 | the nested loops return the replay of the visible log suffix with the counter |
| AppModel.IdsAscend | syncpond-server/src/state.rs:147-159 | ids are handed out in strictly ascending order over every run, so never twice |
| AppModel.IdsCount | syncpond-server/src/state.rs:147-159 | ids are handed out without gaps, from 1 on |
| AppModel.LiveRooms | syncpond-server/src/state.rs:162-168 | the rooms that exist are exactly those created and not deleted |
| AppModel.RoomsAreIndependent | syncpond-server/src/state.rs:109 | a room is determined by the operations addressed to it; operations on other rooms leave it unchanged |
| AppStore.AppState.CreateRoom | syncpond-server/src/state.rs:147-159 | a new empty room under the next id, all others unchanged |
| AppStore.AppState.DeleteRoom | syncpond-server/src/state.rs:162-168 | exactly that room goes, or the room is not found |
| AppStore.AppState.ListRooms | syncpond-server/src/state.rs:252-256 | the strictly ascending list of exactly the rooms in use |
| AppStore.AppState.SetFragment | syncpond-server/src/state.rs:171-198 | the room's step with every other room unchanged, or the room is not found |
| AppStore.AppState.RoomDelta | syncpond-server/src/state.rs:472-510 | the room's delta with its counter, or none when the room does not exist |
| RateLimiter.DropStaleIsRecent | syncpond-server/src/rate_limiter.rs:17-25 | on sorted readings, popping stale readings from the front is filtering by age |
| RateLimiter.RefinesSimple | syncpond-server/src/rate_limiter.rs:27-46 | with a monotone clock every answer is that of a limiter keeping all grants forever |
| RateLimiter.KeysAreIndependent | syncpond-server/src/rate_limiter.rs:32-37 | the answers to a key are those it would get if no other key called |
| RateLimiter.BoundUnderSkew | syncpond-server/src/rate_limiter.rs:28-45 | with readings at most d late, every closed interval of length window - d holds at most limit grants of a key |
| RateLimiter.BoundPerWindow | syncpond-server/src/rate_limiter.rs:27-46 | with a monotone clock every closed window holds at most limit grants of a key |
| RateLimiter.SafeLengthIff | syncpond-server/src/rate_limiter.rs:27-45 | over all runs with readings at most d late, intervals of a length hold at most limit grants of a key if and only if limit is 0 or length + d <= window |
| RateLimiter.FullWindowFailsUnderSkew | syncpond-server/src/rate_limiter.rs:28-29 | an instance: with one late reading two grants under limit 1 fall into one window |
| RateLimiter.DropStaleExactly | syncpond-server/src/rate_limiter.rs:17-25 | for any readings, sorted or not, what goes is exactly the front part that is more than the window old; a later reading is never too old |
| RateLimiter.EvictionKeepsFresh | syncpond-server/src/rate_limiter.rs:31-35 | whatever the clock did, after a call every other stored key has a grant within the window |
| RateLimiter.BucketsAreBounded | syncpond-server/src/rate_limiter.rs:40-45 | whatever the clock did, no bucket holds more than the largest limit its key was called with |
| RateLimiter.StoredKeysIff | syncpond-server/src/rate_limiter.rs:31-37 | with a monotone clock, what is stored after a call is exactly the caller's key and the keys with a grant within the window |
| RateLimiter.Limiter.CleanEntry | syncpond-server/src/rate_limiter.rs:17-25 | the pop loop leaves what follows the stale prefix |
| RateLimiter.Limiter.TryAllow | syncpond-server/src/rate_limiter.rs:27-46 | the buckets stay those of the whole call history, and the answer is the history's next answer |
| HubModel.StepKeepsValid | syncpond-server/src/ws.rs:43-146 | every step keeps rooms at 1 to 200 clients, queues at 256 events, and only matching events of the own room sent |
| HubModel.LeavesIff | syncpond-server/src/ws.rs:106-145 | a client leaves its room exactly when it or its room is removed, or an update meant for it finds it refused, hung up or with a full queue |
| HubModel.JoinsIff | syncpond-server/src/ws.rs:43-50 | a client comes into a room exactly when it is added while fewer than 200 are there, with its containers and an empty open channel |
| HubModel.StaysWithContainers | syncpond-server/src/ws.rs:43-146 | a client that stays in a room keeps its containers |
| HubModel.GapFree | syncpond-server/src/ws.rs:68-146 | received plus queued is a prefix of the matching events since joining, and all of them while the client is in the hub and alive |
| HubModel.NothingAfterRemoval | syncpond-server/src/ws.rs:139-145 | nothing is added for a client that left or whose receiver is gone |
| HubModel.ReceivedIsReturned | syncpond-server/src/ws.rs:408-417 | over every run, what a client has received grows by exactly what its receives return, in order |
| HubModel.ReturnedInOrder | syncpond-server/src/ws.rs:408-417 | over every run, receives return the queue and then the matching events of the room, none repeated or left out |
| HubModel.ReceivesDrain | syncpond-server/src/ws.rs:408-417 | on an open channel k receives in a row return the first k events and leave the rest |
| HubModel.HangupIsFinal | syncpond-server/src/ws.rs:376-420 | after a hang-up the channel is closed for good and only what was received remains |
| Fanout.ClientKeyInjective | syncpond-server/src/ws.rs:116 | different room and client pairs have different limiter keys |
| Fanout.Outbound.TrySend | syncpond-server/src/ws.rs:126-136 | sends when open and below 256, else reports full or closed and changes nothing |
| Fanout.WsHub.AddClient | syncpond-server/src/ws.rs:43-50 | the client is added with its own channel unless the room holds 200 |
| Fanout.WsHub.RemoveClient | syncpond-server/src/ws.rs:53-60 | exactly that client goes, and the room with its last client |
| Fanout.WsHub.RemoveRoom | syncpond-server/src/ws.rs:63-65 | all clients of the room go, their channels keep what is queued |
| Fanout.WsHub.BroadcastUpdate | syncpond-server/src/ws.rs:101-145 | each target is visited once; the event is queued for exactly those granted, open and not full, all other targets are removed |
| DeliveryRate.SendsAreCounted | syncpond-server/src/ws.rs:116-136 | over every run a client's channel is given exactly one event per counted send time |
| DeliveryRate.SendRate | syncpond-server/src/ws.rs:116-126 | whatever happened before, one client is sent at most limit events in any window of a run |
| DeliveryRate.ChannelRate | syncpond-server/src/ws.rs:116-136 | sends that all fall into one window add at most limit events to a client's channel |
| DeliveryRate.OwnTrafficOnly | syncpond-server/src/ws.rs:116-124 | a client's verdicts are those of a limiter that saw only this client's turns in this room |
| Decimal.PrefixInjective | syncpond-server/src/ws.rs:116 | a printed number followed by a separator determines both parts |
| Decimal.DigitsArePositional | syncpond-server/src/commands.rs:366-368 | a text of digits stands for the sum of its digits times the powers of ten of their places |
| Decimal.ParseU64Iff | syncpond-server/src/commands.rs:366-368 | a text is read as n exactly if it is digits, at least one, perhaps after a plus sign, that stand for n, and n is at most 18446744073709551615 |
| Decimal.PrintIsCanonical | syncpond-server/src/ws.rs:116 | numbers are printed without leading zeros |
| Decimal.ParseOfPrint | syncpond-server/src/commands.rs:366-368 | parsing a printed id gives it back, or nothing from 2^64 on |
| Utf8.CharRoundTrip | syncpond-server/src/commands.rs:17-29 | the byte lengths used for names are those of the UTF-8 encoding: well formed, decodable and shortest |
| Utf8.LengthIsEncoded | syncpond-server/src/commands.rs:17-29 | the byte length of a text is the length of its UTF-8 encoding |
| Tokenizer.WhitespaceCodes | syncpond-server/src/commands.rs:349-355 | the 25 code points that separate words |
| Tokenizer.TakeTokenProgress | syncpond-server/src/commands.rs:312-362 | a token leaves a strictly shorter suffix; it fails exactly on blank input and on an unclosed quote |
| Tokenizer.QuotedGrammar | syncpond-server/src/commands.rs:318-347 | quoted input is read as (token, rest) exactly when it is an escaped text for the token, a quote, and the rest |
| Tokenizer.QuotedRoundTrip | syncpond-server/src/commands.rs:318-347 | quoting any string and reading it back gives the string and the rest |
| Tokenizer.QuotedListRoundTrip | syncpond-server/src/commands.rs:291-301 | any list printed quoted is recovered by the container loop |
| Tokenizer.JoinRecoveredIff | demo/server-cli/src/main.rs:191-195 | the unquoted join is recovered if and only if every name is non-empty, free of whitespace and has no leading quote |
| Tokenizer.TokensProgress | syncpond-server/src/commands.rs:291-301 | at most as many tokens as characters, and the only failure is an unclosed quote |
| Tokenizer.NextToken | syncpond-server/src/commands.rs:312-362 | the scanning loops compute the token function |
| Tokenizer.AllTokens | syncpond-server/src/commands.rs:291-301 | the container loop terminates and collects all tokens or reports the unclosed quote |
| Commands.CommandRoundTrip | syncpond-server/src/commands.rs:33-309 | every command, with any names of at most 256 bytes, is recovered from its printed line, which is one line and survives trimming if the JSON text is |
| Commands.ReadLine | syncpond-server/src/commands.rs:33-309 | reading a line token by token with the scanning loops is the parse function |
| Commands.TokenGenLine | syncpond-server/src/commands.rs:282-301 | the command-line tool's TOKEN.GEN line is understood if and only if every container name is bare |
| CommandLaws.CommandEffect | syncpond-server/src/commands.rs:43-310 | what each command does to the rooms and answers, with the text of each refusal; a refused command changes nothing, and no command changes another room |
| CommandLaws.LineEffect | syncpond-server/src/commands.rs:32-310 | the same for the line on which any command is printed |
| CommandLaws.CommandAnnounces | syncpond-server/src/commands.rs:114-132 | SET, DEL and TX.END hand on exactly one update, with this event and counter; all others and refused ones none |
| CommandLaws.UnreadableLine | syncpond-server/src/commands.rs:36-41 | blank lines, unclosed quotes and unknown verbs are refused, each with its text |
| CommandLaws.ExtraArguments | syncpond-server/src/commands.rs:58-60 | anything after the arguments of a command that takes no more is refused |
| CommandLaws.MissingArguments | syncpond-server/src/commands.rs:312-316 | a verb that needs arguments is refused alone |
| CommandLaws.BadRoomId | syncpond-server/src/commands.rs:364-370 | a first argument that is no number below 2^64 is refused where a room id is expected |
| CommandLaws.BadNamesOrValue | syncpond-server/src/commands.rs:14-29 | names of more than 256 bytes, a missing value and one that is not JSON are refused, in this order, each with its text |
| Commands.DeletionIsCleanedIff | syncpond-server/src/main.rs:588-597 | a successful deletion cleans the hub, and of that room, if and only if verb and id are unquoted |
| Commands.OnlyDeletionCleans | syncpond-server/src/main.rs:588-597 | no other command's line leads to hub cleanup |
| Commands.QuotedDeletionIsNotCleaned | syncpond-server/src/main.rs:588-597 | deleting any room by quoted id is accepted without cleanup |
| Commands.ExecuteOnRoom | syncpond-server/src/commands.rs:115-132 | response and emitted update of SET, DEL and TX commands, with the counter read after the operation |
| Commands.ProcessCommand | syncpond-server/src/commands.rs:32-310 | a line that does not parse changes nothing; any other gives the state, response and updates of its command |
| Mirror.MirrorIsTold | syncpond-server/src/commands.rs:114-132 | over every run a mirror is the snapshot of the log the client joined with and the writes announced since |
| Mirror.MirrorInvariant | syncpond-server/src/commands.rs:114-132 | over every run a mirror is the snapshot of log plus open buffer if and only if the client was told the value of each astray key; always if nothing buffered was missed, withheld or aborted |
| Mirror.CountersNeverDecrease | syncpond-server/src/commands.rs:117-121 | the counters a client receives never decrease, aborts and withheld updates included |
| Mirror.AbortKeepsMirrorIff | syncpond-server/src/state.rs:441-446 | at the end of a run with one abort a mirror is right if and only if each visible buffered key ended at its committed value or is written again after the abort |
| Mirror.JoinInsideIff | syncpond-server/src/ws.rs:332-342 | a client that joined inside a transaction is right at the end of a run if and only if each visible key buffered before ended at its committed value or is written again |
| Mirror.SkipKeepsStepIff | syncpond-server/src/main.rs:612-615 | after one withheld update a mirror is right at the end of a run if and only if the key is invisible, written again, or kept its value |
| Mirror.AbortedRunFails | syncpond-server/src/state.rs:441-446 | begin, SET, abort: for any visible key and value the client keeps a value the room never held |
| Mirror.JoinInsideFails | syncpond-server/src/ws.rs:332-342 | joining between SET and TX.END: for any visible key and value the client never learns it |
| Mirror.SkippedRunFails | syncpond-server/src/main.rs:612-615 | one withheld SET: for any visible key and value the client never learns it |
| Mirror.WriteKeepsStepIff | syncpond-server/src/ws.rs:75-112 | exactly which single writes, "*" included, keep a mirror in step |
| Resume.SeenAtCut | syncpond-server/src/commands.rs:117-121 | the highest counter a client saw is the room's counter right after the last operation it heard of |
| Resume.ResumeMeaning | syncpond-server/src/state.rs:472-510 | over every run and cut, mirror plus delta since the highest counter seen is what the client was told followed by everything committed since the cut |
| Resume.ResumeIff | syncpond-server/src/state.rs:472-510 | over every run and cut, that is the room's snapshot if and only if the client was told the committed value of each doubtful key not committed since |
| Resume.SteadyResumeIff | syncpond-server/src/state.rs:472-510 | a client that missed nothing up to the cut resumes exactly if the writes it received early go unnoticed; always if no transaction was open at the cut, or if it is over and was not aborted |
| Resume.ResumeFailsInsideTransaction | syncpond-server/src/commands.rs:115-132 | for any visible key and value, resuming while the transaction of a received SET is open misses the snapshot |
| Resume.CounterReadLateLosesWrites | syncpond-server/src/ws.rs:332-353 | a SET between snapshot and counter read is lost even after resuming; the older counter would bring it |
| ServerModel.SubscriberMirror | syncpond-server/src/main.rs:547-627 | over every serial run, aborts, withheld updates and commands during the handshake included, a subscriber in the hub has the mirror that MirrorInvariant promises |
| ServerModel.SubscriberResumes | syncpond-server/src/main.rs:547-627 | over every serial run, likewise unrestricted, resuming from what a subscriber received before any cut gives the snapshot under ResumeIff's exact condition |
| ServerModel.BroadcastsAreEmitted | syncpond-server/src/main.rs:605-626 | over every run, what the hub broadcasts to a room is what the room's operations announce, in order, withheld updates left out |
| ServerModel.NoDeletedEventIsSent | syncpond-server/src/ws.rs:90-99 | over every run no client is ever sent an event that says "deleted" |
| ServerModel.DeletionIsAnnouncedAsNull | syncpond-server/src/commands.rs:159-176 | an accepted DEL is announced as a null value with the counter after it, or as a counter event for "*","*"; a refused one is not announced |
| SystemLaws.AttachAndLeave | syncpond-server/src/ws.rs:43-60 | attaching and leaving change the members of one room and nothing else but the new channel |
| SystemLaws.ReceiveAndHangup | syncpond-server/src/ws.rs:408-417 | a receive takes out the oldest event, a hang-up closes the channel and loses its queue; rooms stay |
| SystemLaws.CommandOnHub | syncpond-server/src/main.rs:588-626 | a command cleans the hub of a deleted room, broadcasts its event, or leaves the hub alone |
| SystemLaws.CommandOnClient | syncpond-server/src/ws.rs:106-145 | exactly when a command's event is put at the end of a client's queue, and exactly when the client is out of its room |
| SystemLaws.DeletionLine | syncpond-server/src/main.rs:588-603 | after the line of a deletion the hub has no client of that room if verb and id are unquoted and the room was there, all other members and all channels unchanged; else the hub is untouched |
| SystemLaws.SubscriberReceives | syncpond-server/src/ws.rs:408-417 | over every serial run, what a subscriber has received is what its receives returned, a prefix of what was announced to it |
| ServerModel.ReachableSystems | syncpond-server/src/main.rs:547-627 | every reachable system satisfies the room-id and hub bounds |
| SystemRates.ReachableWorlds | syncpond-server/src/main.rs:547-627 | in every world reached from a start the limiters have had only calls in clock order with their own limits, as the rates require |
| SystemRates.RoomRate | syncpond-server/src/main.rs:605-616 | in any window of any run, at most the room limit of one room's updates reaches the hub |
| SystemRates.HubTimesAreBroadcasts | syncpond-server/src/main.rs:605-626 | over every run, the counted readings of a room are as many as its updates broadcast by the hub |
| SystemRates.RoomBurst | syncpond-server/src/main.rs:605-626 | a stretch whose updates of a room fall into one window broadcasts at most the room limit of them |
| SystemRates.RoomTrafficOnly | syncpond-server/src/main.rs:605-616 | which updates of a room are withheld depends on that room's updates only, as if the limiter saw nothing else and kept all grants |
| SystemRates.ClientRate | syncpond-server/src/ws.rs:116-126 | in any window of any run, a client is sent at most the update limit of events |
| SystemRates.ClientCountIsSent | syncpond-server/src/ws.rs:116-136 | the counted sends of a stretch are what the client's channel grows by while its receiver lives |
| SystemRates.ClientBurst | syncpond-server/src/ws.rs:116-136 | a stretch that sends to a client within one window only sends it at most the update limit of events |
| Server.CommandLoop.Publish | syncpond-server/src/main.rs:605-626 | the room-level limiter is asked once at a reading of this clock; a refusal withholds the update from everybody, otherwise each target has one turn, at later readings |
| Server.CommandLoop.HandleLine | syncpond-server/src/main.rs:565-626 | one line is at most one tick of the system; a line that cannot be read changes nothing, a command has exactly its effect and answer, and a deletion cleans the hub exactly when its words are unquoted and the room was there |
| Server.CommandLoop.TakeSnapshot | syncpond-server/src/ws.rs:332-342 | the snapshot and counter of the room as it is now, or none |
| Server.CommandLoop.ReadCounter | syncpond-server/src/ws.rs:344-347 | the room's counter as it is now, 0 if the room is gone |
| Server.CommandLoop.Attach | syncpond-server/src/ws.rs:357-374 | the client is added to the room's clients unless there are 200, whatever happened since its snapshot |
| Server.CommandLoop.Receive | syncpond-server/src/ws.rs:408-417 | the connection takes its oldest event, and that is the receive step of the system |
| Server.CommandLoop.Hangup | syncpond-server/src/ws.rs:376-420 | a connection that is gone loses what was queued, and that is the hang-up step of the system |
| Server.CommandLoop.Leave | syncpond-server/src/ws.rs:422-425 | a client whose connection ended is taken out of its room, as the leave step of the system |
| Server.CommandLoop.Join | syncpond-server/src/ws.rs:332-374 | the three steps of joining with nothing in between |

## Left out

- Socket I/O, TLS, origin checks and authentication in `handle_ws_connection`: plumbing; the three steps of joining and the hub's methods are modelled.
- Tokens and their claims (`validate_jwt_claims`): they rest on a cryptographic library.
- Commands.ProcessCommand: the replies of SET.JWTKEY and TOKEN.GEN are not told apart, because keys and tokens are not modelled; the containers of TOKEN.GEN are modelled up to the call that makes the token.
- Fanout.WsHub.AddClient: asks for a client id the hub has not seen and a channel of its own; the source would overwrite an entry, but its ids are random UUIDs.
- JSON text: the parser is a parameter, and only null is told apart from other values.
- Concurrent command connections: broadcasts happen after the state lock is released, so their order across connections is not fixed; the system claims are about the serial loop.
- Values of `room_counter` and `next_room_id` are unbounded; the source's unchecked 64-bit increments are not modelled.
- Lock poisoning, metrics counters, configuration, the health and document servers, and the TypeScript and demo clients.
- Hash map iteration order is arbitrary in the loops; the sort of the room list is a loop of its own.
- Clock readings: `Instant::now` is a clock object whose readings never go back; late readings are covered by the limiter's skew statements.
- The limit on the length of a command line, and API key and connection limits before the first command.
- Text is a sequence of characters; byte offsets of the source are not modelled, only the UTF-8 length of names.
