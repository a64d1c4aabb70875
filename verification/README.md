# Camera monitor firmware: a Dafny model of what it decides, remembers and re-reads

This project models the parts of an ESP32 ONVIF camera monitor that carry state across calls, reboots,
tasks and clock wraparound, and proves what they promise. `dafny verify dfyconfig.toml` checks all of it.

Conventions of the model:

- Time is an unbounded number of milliseconds; `millis()` is that number modulo 2^32. Unsigned subtraction and
  the signed test `(long)(a - b) < 0` are written out (`Millis`).
- A mutex section is one atomic step. What lies between two sections interleaves with every other task.
- A store in NVS is a map whose writes may fail, before or after they took effect (`NvsPreferences`).
  `healthy` means that none does.
- `String::toInt()` saturates at the ends of a signed 32-bit long, and one `char` stands for one byte.
- Where the source updates an object in place there is a class with the same fields, and each method's
  postcondition ties its whole new state to a step function of the old one. The theorems are about runs of that
  step function.

## Modules

- Configuration: `Text`, `CameraSerialize`, `UserSerialize`, `NetworkSerialize` (record formats and their
  history), `NvsChunk`, `NvsPreferences`, `ChunkedEntry`, `RecordStore`, `Sorting`, `CameraStore`, `UserStore`,
  `FailedSave` (saves with failing writes), `Settings`, `SettingsStore` (NVS stores), `ConfigImport`, `ConfigExport`, `ConfigRoundTrip`, `ConfigBackup`
  (export, import, undo).
- Protocols and tasks: `TelegramDelivery` (update delivery across reboots), `RetryQueue` (messages retried while
  others enqueue), `CameraTasks` and `CameraRoster` (live camera life cycle), `TimedMute` (revert timers).
- Per-camera machines: `CameraEvents` and `RenderedEvents` (event batches, and batches as cameras write them),
  `Alerts` (cooldown and digest), `OfflineDetector` (the camera loop against OFFLINE detection), `SdCredit` (waits for
  the SD card against OFFLINE detection), `Backoff`, `Millis`.
- Tables, files and devices: `LruTable`, `LoginLockout`, `CommandRate`, `SnapshotRing`, `SnapshotPruning`,
  `SnapshotNames`, `Calendar`, `HttpDate`, `OutageWatchdog`, `PowerMonitor`; `Common` holds shared vocabulary.

## Where the code and its own comments differ

Each of these is a lemma about the code as it is.

- A tamper or signal-loss alert moves `lastAlert` without disarming the digest, so the next digest can report
  motion lasting 49 days (`Alerts.TamperGarblesDigest`); `Alerts.DigestTellsTheTruth` says exactly when.
- "A live task exists exactly when enabled is true" fails after a second save before the spawned task has applied
  its configuration, after a save while setup() is still staggering the start-up tasks, after an enable saved before
  a stop is consumed, and after a task exits for missing credentials (`CameraTasks.SecondSaveSpawnsTwice`,
  `SaveDuringStartupSpawnsTwice`, `EnableBeforeStopConsumedIsLost`, `NoCredentialsNoTask`). The save mutex does
  not prevent the first: `enabled` changes only when the task applies the configuration. Exactly when a save or
  setup() leaves a slot with two tasks or with none is `SecondTaskExactly`, `SecondTaskAtBootExactly`,
  `EnableWithoutTaskExactly`, `DisableWithTaskExactly` and `BootWithoutTaskExactly`.
- An import rewrites the stored cameras and no slot. A running camera it disables runs on
  (`CameraTasks.ImportSplitsExactly`), and a bulk edit after it hands the disabled configuration to the running task,
  so that the next enabling save gives the slot a second one (`CameraTasks.BulkAfterImport`).
- An empty bridge camera name reads as a failed write and the settings after it are not stored
  (`SettingsStore.SaveBridgeWatchdogSettings`), so undoing an import may not bring the bridge watchdog back
  (`ConfigBackup.BridgeUndoneExactly`).
- The camera serializer strips the field separator but not the record separator
  (`CameraStore.RecordSeparatorBreaksRecord`).
- A due revert is read and applied under two locks; a command in between is overwritten and its timer dropped
  (`TimedMute.CommandBetweenIsLost`).
- Snapshot names carry unpadded `millis()`, so names within one second can sort against capture order
  (`SnapshotNames.SameSecond`).
- Today's snapshot folder is created before pruning, and pruning removes it again when it deletes the camera's
  last file in it; the write that follows has no folder, fails, and SD storage is marked failed
  (`SnapshotPruning.DayDirLost`, `SnapshotPruning.OnlyTodaysFileLost`).
- A lockout deadline is never cleared when it passes and bites again 2^31 ms later
  (`LoginLockout.StaleDeadlineRefuses`); an alert long due is held back for one cooldown after each wrap
  (`Alerts.CoolingExact`).
- "A new chat is always allowed" ends with the 17th chat (`CommandRate.NewChatRefused`,
  `CommandRate.SeventeenthChatRefused`).
- A snapshot pushed by another task credits its whole wait for the SD card even if the camera answered meanwhile:
  `lastContactMs` passes now and the camera is OFFLINE at once (`SdCredit.OnePushExactly`,
  `SdCredit.AnswerDuringPushFalseAlarm`); two pushes at a time are both credited for the wait they share
  (`SdCredit.OverlapExactly`).
- `lastRetry = 0` means "retry now" only from a clock reading of 10 s on: a threshold lowered in the first 10 s of a
  clock cycle is held against the old silence before the camera is asked (`OfflineDetector.EditAtCycleStartExactly`,
  `OfflineDetector.EditAtCycleStartFalseAlarm`), and so is the silence of a WiFi outage that ends there
  (`OfflineDetector.OutageAtCycleStartFalseAlarm`). A poll interval longer than the threshold reports an answering
  camera OFFLINE (`OfflineDetector.SlowPollFalseAlarm`).
- "NVS still has the old data" after a failed save holds only if no write that changed something took effect
  (`FailedSave.TextKeptExactly`): the chunks are overwritten in place, so the next load may read the head of the new
  list and the tail of the old one (`FailedSave.TornSave`). A migration that fails may leave the old records under the
  new version, where none is named (`FailedSave.FailedMigrationHidesAll`), and one from the single-entry layout may
  leave no list at all, so that the board is seeded afresh (`FailedSave.LegacyListLostExactly`).
- The export prints names and notes into its prose unstripped: a user name with as many separators as a camera record
  has reads back as one more camera (`ConfigRoundTrip.CamerasReadExactly`).
- `putString` answers 0 for an empty text, written or not: under failing writes a WiFi save can report success while
  a field meant to be cleared keeps its old value (`SettingsStore.ClearedFieldCanStay`).
- The DS3231 hour mask keeps the PM bit, so a chip left in 12-hour mode does give an out-of-range hour, against
  lib/rtc_ds3231/rtc_ds3231.h:16-18 (`Calendar.TwelveHourModePm`).
- A relay pulse, or the start of an outage, at the millisecond when the clock reads 0 is forgotten
  (`OutageWatchdog.ForgottenGoesUnreported`, `OutageWatchdog.PulseAtZeroLosesOutage`,
  `OutageWatchdog.OutageFromZeroForgotten`).
- A person event whose alerts are muted hides a wanted pet event, though never a wanted vehicle
  (`RenderedEvents.MutedPersonHides`).
- The body-wide gate looks for the value as written, the topics for the trimmed one: a batch whose true values all
  carry a space raises nothing (`RenderedEvents.PaddedTrueMissed`).

## Model

| member | source | states |
|---|---|---|
| Text.SplitFields | lib/camera_serialize/camera_serialize.cpp:14-24 | The one-pass splitter yields the pieces between separators, an empty text giving one empty piece. |
| Text.SplitJoin | lib/camera_serialize/camera_serialize.cpp:14-24 | Splitting undoes joining whenever no piece holds the separator. |
| Text.ToIntDecimal | lib/camera_serialize/camera_serialize.cpp:63-88 | Printing a number and reading it with toInt() gives it back clamped to a signed 32-bit long. |
| CameraSerialize.RoundTrip | lib/camera_serialize/camera_serialize.cpp:27-59 | A camera written and read under version 8 or newer loses only separators in its strings and the part of its 32-bit numbers above 2^31 - 1. |
| CameraSerialize.RoundTripExactly | lib/camera_serialize/camera_serialize.cpp:305-339 | It comes back equal if and only if its strings hold no field separator and its 32-bit numbers are below 2^31. |
| CameraSerialize.MigrationPreserves | lib/camera_serialize/camera_serialize.cpp:341-357 | For every record text and every version: parsed, re-serialized and re-parsed it is the same camera if and only if its 32-bit numbers are below 2^31. |
| CameraSerialize.LaterLayoutExtends | lib/camera_serialize/camera_serialize.cpp:61-339 | Each of the layouts 1 to 8, given the older fields plus the written defaults, reads what the layout before it reads, for every field count that one accepts (11 or more in version 0). |
| CameraSerialize.WrongFieldCountUnnamed | lib/camera_serialize/camera_serialize.cpp:61-339 | A wrong field count never yields a named camera: fewer than 11 in version 0, any but the layout's own later. |
| UserSerialize.UserRoundTrip | lib/telegram_user_serialize/telegram_user_serialize.cpp:47-68 | A user written and read back loses only separators and empty camera names. |
| UserSerialize.UserRoundTripExactly | lib/telegram_user_serialize/telegram_user_serialize.cpp:174-191 | It comes back equal if and only if its texts hold neither separator and no camera name is empty. |
| UserSerialize.UserMigrationPreserves | lib/telegram_user_serialize/telegram_user_serialize.cpp:193-206 | A user record of any version, re-saved and read again, is the same user if and only if its name and chat id hold no list separator. |
| NetworkSerialize.NetworkRoundTrip | lib/network_serialize/network_serialize.cpp:26-68 | The network record comes back with both passwords blank, separators stripped, the interval capped at 2^31 - 1, and nothing else changed. |
| NvsChunk.SplitIntoChunks | lib/nvs_chunk/nvs_chunk.cpp:3-13 | The loop yields the chunk list of its specification: non-empty pieces of at most the size, as few as possible. |
| NvsChunk.JoinChunks | lib/nvs_chunk/nvs_chunk.cpp:15-19 | The loop yields the concatenation of the chunks. |
| NvsChunk.ConcatChunks | lib/nvs_chunk/nvs_chunk.cpp:3-19 | Joining undoes splitting for every text and every size above 0. |
| ChunkedEntry.ChunkKeysDistinct | src/camera_store.cpp:49-53 | The chunk keys of one list never collide below 2^16 chunks. |
| ChunkedEntry.WriteChunks | src/camera_store.cpp:145-178 | If every chunk write succeeds the chunk keys hold exactly the chunks; when no operation fails, the chunks of a longer list before it are gone; other keys are untouched; in any case each chunk key holds what the writes and removals that took effect left there. |
| ChunkedEntry.ReadText | src/camera_store.cpp:55-75 | Reads back the stored text, chunk by chunk. |
| RecordStore.SaveRecords | src/camera_store.cpp:145-178 | True only if every write succeeded, and then the next load returns exactly the saved list, from whatever layout the entries had before; in any case the entries are the old ones with some of its writes done. |
| FailedSave.TextKeptExactly | src/camera_store.cpp:150-176 | After a save of which any set of writes took effect, the stored text of a list saved whole before is unchanged if and only if no old chunk was replaced by another text or removed, and a new count is not smaller and counts in only empty entries. |
| FailedSave.FailedSaveKeeps | src/camera_store.cpp:169-174 | Then, in the current layout, the next load returns the old list. |
| FailedSave.TornSave | src/camera_store.cpp:150-176 | When only the first k of as many chunks as before are written, the next load reads those and the old ones from k on. |
| FailedSave.FailedMigrationHidesAll | src/camera_store.cpp:129-140 | When a migration writes the version and no chunk, the next load names no record of an older layout, and writes nothing. |
| FailedSave.LegacyListLostExactly | src/camera_store.cpp:159-162 | From the layout with one entry, the next load seeds afresh if and only if the old entry was removed and the count not written. |
| RecordStore.LoadsWhatWasSaved | src/camera_store.cpp:55-143 | Entries that hold a list's text under the current version load as that list with nothing dropped. |
| RecordStore.ParseRecords | src/camera_store.cpp:97-125 | The record loop keeps the named records in order and counts exactly the others. |
| RecordStore.LoadRecords | src/camera_store.cpp:55-143 | A load returns what is stored, seeds a fresh board, rewrites an older schema, and writes nothing at all if any record failed to parse or nothing needs migrating. |
| RecordStore.AddRecord | src/telegram_users.cpp:153-171 | Succeeds exactly when the record clashes with none stored; then the next load is the old list with it appended, still free of clashes. |
| RecordStore.UpdateRecord | src/telegram_users.cpp:195-218 | Succeeds exactly when the original name exists and no other record clashes; then only that record changes. |
| RecordStore.DeleteRecord | src/telegram_users.cpp:180-193 | Succeeds exactly when the name exists; then only its first record is gone. |
| RecordStore.UpdateAll | src/camera_store.cpp:218-229 | Fails exactly on an empty list; otherwise the next load is the edit applied to every record, in order. |
| Sorting.SortBySorted | lib/camera_serialize/camera_serialize.cpp:363-369 | The name sort yields a permutation in which no later name is less than an earlier one. |
| Sorting.SortedUnique | lib/camera_serialize/camera_serialize.cpp:363-369 | With distinct keys there is only one sorted order, so any sort gives it. |
| CameraStore.RecordSeparatorBreaksRecord | src/camera_store.cpp:55-143 | A list of otherwise sound cameras loads back if and only if none of their texts holds a record separator. |
| CameraStore.LoadCameras | src/camera_store.cpp:55-143 | Returns the stored cameras sorted by name and writes nothing when a record was dropped or the schema is current. |
| CameraStore.SaveCameras | src/camera_store.cpp:145-178 | If it returns true the next load gives exactly this list of storable cameras, sorted. |
| CameraStore.SaveThenLoad | src/camera_store.cpp:55-178 | A save reported as successful, under any pattern of failing writes, is read back by the next load, sorted by name. |
| UserStore.StorableUserSurvives | src/telegram_users.cpp:31-151 | A named user free of separators, with no empty camera name, survives the user store. |
| SettingsStore.SaveSdSettings | src/sd_store.cpp:35-64 | A save reported as successful is what the next load returns. |
| SettingsStore.SaveNetWatchdogSettings | src/net_watchdog.cpp:34-62 | A save reported as successful is what the next load returns. |
| SettingsStore.SavePowerMonitorSettings | src/power_monitor.cpp:22-45 | A save reported as successful is what the next load returns. |
| SettingsStore.SaveBridgeWatchdogSettings | src/bridge_watchdog.cpp:31-62 | With no failing write: succeeds if and only if both camera names are non-empty; otherwise every setting after the first empty name keeps its old value. |
| SettingsStore.SaveWifiCredentials | src/network_store.cpp:33-104 | With no failing write the next load returns exactly the saved credentials. Under failing writes a reported save has stored everything but empty strings, which may keep their old values, so the next load returns it if it names the first network and clears no field. |
| SettingsStore.ClearedFieldCanStay | src/network_store.cpp:72-104 | Whenever a save clears a field, its writes can all count as done and leave entries that do not read back as saved. |
| ConfigImport.SplitLines | lib/config_import_parse/config_import_parse.cpp:33-45 | The loop yields the lines of the text, each without a trailing carriage return. |
| ConfigImport.CamerasHaveDuplicateName | lib/config_import_parse/config_import_parse.cpp:7-14 | True exactly when two cameras share a name, ignoring case. |
| ConfigImport.UsersHaveDuplicateIdentity | lib/config_import_parse/config_import_parse.cpp:17-26 | True exactly when two users share a name, ignoring case, or a chat id as a number. |
| ConfigImport.FlushSection | lib/config_import_parse/config_import_parse.cpp:164-244 | Closing a section turns its collected lines into that section's values, or leaves the result alone. |
| ConfigImport.ParseConfigImport | lib/config_import_parse/config_import_parse.cpp:155-260 | The line loop computes the import of the text as its specification folds it over the lines. |
| ConfigExport.BuildConfigExport | src/config_backup.cpp:137-272 | The accumulating text is the terminated lines of the seven marked blocks and the prose between them. |
| ConfigRoundTrip.ImportOfExport | src/config_backup.cpp:137-272 | Importing an export finds all seven sections and recovers exactly the exported values, separators stripped, numbers capped at 2^31 - 1, passwords blank, whatever lies between the blocks, while no line of it is a marker, none after the cameras reads as a camera and none after the users as a user. |
| ConfigRoundTrip.CamerasReadExactly | lib/config_import_parse/config_import_parse.cpp:167-177 | The CAMERAS section gives exactly the exported cameras if and only if no line of the prose after them reads as a camera. |
| ConfigRoundTrip.UsersReadExactly | lib/config_import_parse/config_import_parse.cpp:178-188 | The same of TELEGRAM_USERS. |
| ConfigBackup.ExportImportIdentity | lib/config_import_parse/config_import_parse.cpp:155-260 | On separator-free configurations with numbers below 2^31 export then import is the identity, WiFi passwords aside. |
| ConfigBackup.Board.SaveConfigBackup | src/config_backup.cpp:53-70 | A backup reported as saved is stored, whole. |
| ConfigBackup.Board.ApplyConfigImport | src/config_backup.cpp:85-135 | The backup holds the configuration from before; every accepted section then loads as imported, and a section that is missing or rejected leaves its settings as they were. |
| ConfigBackup.Board.ImportThenUndo | src/config_backup.cpp:53-135 | Importing any file with a recognised section and then the automatic backup restores every exported setting, WiFi passwords blank, except a bridge watchdog with an empty camera name. |
| ConfigBackup.BridgeUndoneExactly | src/bridge_watchdog.cpp:46-62 | When exactly the bridge watchdog is restored too. |
| CameraEvents.ExtractEventStateValue | lib/camera_parse/camera_parse.cpp:47-85 | The search loop terminates and computes the value its specification reads block by block. |
| CameraEvents.TopicsAreKeywords | lib/camera_parse/camera_parse.cpp:87-100 | No topic keyword overlaps a block's closing tag. |
| CameraEvents.BatchRead | lib/camera_parse/camera_parse.cpp:47-85 | A batch of any length is read block by block, each block by its own content alone. |
| RenderedEvents.RenderedRead | lib/camera_parse/camera_parse.cpp:47-85 | Off a block as a camera writes it (topic, any of the three state attributes, the value in either quote) the parser reads exactly the written value for its topic, and nothing for any other. |
| RenderedEvents.ReportedTrueExactly | lib/camera_parse/camera_parse.cpp:42-104 | In a batch of any length a topic is reported true if and only if some block of that topic was written with a value that is true, spaces aside. |
| CameraEvents.ParseEvents | src/camera.cpp:403-467 | The branches compute the reaction of the specification for every body. |
| RenderedEvents.RenderedReaction | src/camera.cpp:403-467 | What parseEvents does with a batch is what the written values call for, whenever some value is exactly true or none is true with spaces; otherwise it is that or, if the gate finds no true, nothing. |
| RenderedEvents.PaddedTrueMissed | lib/camera_parse/camera_parse.cpp:87-92 | One block whose value is true with a space is a report, and raises nothing. |
| RenderedEvents.MutedPersonHides | src/camera.cpp:427-467 | A muted person event hides a wanted pet event and never a wanted vehicle. |
| CameraEvents.TrueOpensGate | src/camera.cpp:403-405 | The body-wide gate never closes on a block whose value is exactly true. |
| TelegramDelivery.NothingLost | src/telegram_commands.cpp:836-928 | In every run, with crashes, failed writes and reboots anywhere, every update at or below the persisted offset, and every update confirmed to the server, has been dispatched. |
| TelegramDelivery.NoResetTwice | src/telegram_commands.cpp:418-428 | No /reset update reboots the board twice, whatever else crashes, while the write before the restart succeeds. |
| TelegramDelivery.UnsavedResetLoops | src/telegram_commands.cpp:418-428 | Without that write the same /reset reboots it again on the next boot. |
| TelegramDelivery.ExactlyOnce | src/telegram_commands.cpp:836-928 | When the only reboots come from /reset, updates are dispatched in order and at most once, and every one up to the offset is. |
| TelegramDelivery.AllDispatched | src/telegram_commands.cpp:836-928 | After any run, crashes and failed writes included, as many answered polls as the server still holds updates dispatch every update that has arrived; in order and once each if no crash was among them. |
| TelegramDelivery.Poller.PollTelegramCommands | src/telegram_commands.cpp:836-928 | One poll is a run of fetch, handle and finish steps, cut short by a restart. |
| Millis.BeforeExact | src/telegram_commands.cpp:699 | The signed deadline test is right within 2^31 ms on either side. |
| Millis.BeforeStale | src/webserver.cpp:80 | Beyond, it is wrong for the next 2^31 ms. |
| Millis.ElapsedExact | lib/net_watchdog_logic/net_watchdog_logic.cpp:25-27 | Unsigned subtraction measures any span below 2^32 ms across wraparound. |
| Backoff.DelayAfterFailures | lib/backoff/backoff.cpp:3-17 | After k failures the delay is min(start * 2^(k-1), cap): the 32-bit doubling never shows its wraparound. |
| Backoff.DelayWithinCap | lib/backoff/backoff.cpp:3-24 | Whatever the delay was under an older cap, the next one is between the start and the cap in force. |
| LruTable.FindSlot | src/webserver.cpp:120-134 | The two loops find the exact match, else a free entry, else a least recently seen one. |
| LruTable.PutKeepsNoDuplicates | src/webserver.cpp:120-134 | Storing into the found entry never gives a key a second one. |
| LruTable.RoomForNewKey | src/webserver.cpp:120-134 | While all keys ever seen fit the table, a new one gets a free entry. |
| LoginLockout.RateLimiter.FindOrCreate | src/webserver.cpp:117-134 | Touches the address's entry and resets an evicted one; nothing else changes. |
| LoginLockout.RateLimiter.CheckGate | src/webserver.cpp:75-88 | The first critical section: its answer and remaining time are those of the entry found or made. |
| LoginLockout.RateLimiter.RecordOutcome | src/webserver.cpp:90-112 | The second one: a success clears the account, the fifth failure locks it. |
| LoginLockout.NoAddressTwice | src/webserver.cpp:117-134 | In every run no address occupies two entries. |
| LoginLockout.EvictionOnlyForgets | src/webserver.cpp:117-134 | Every account in the table is the address's account over some suffix of the run, however many addresses there are. |
| LoginLockout.AgreesWithUnboundedMap | src/webserver.cpp:56-134 | While at most 8 addresses appear, every account and every answer is that of an unbounded per-address map. |
| LoginLockout.ClosedForm | src/webserver.cpp:96-111 | The account in closed form: failures since the last success modulo 5, the k-th lockout min(30 s * 2^(k-1), 30 min) from the failure that completed it. |
| LoginLockout.RefusedUntilDeadline | src/webserver.cpp:80-111 | An address is refused if and only if it has five failures in a row and the lockout has not ended, for a deadline that does not read 0 and lies less than 2^31 ms back. |
| LoginLockout.TableRefusesUntilDeadline | src/webserver.cpp:75-134 | The same of the 8-entry table. |
| LoginLockout.SuccessResets | src/webserver.cpp:96-99 | One success resets everything. |
| LoginLockout.StaleDeadlineRefuses | src/webserver.cpp:80 | A passed deadline refuses again from 2^31 to 2^32 ms later. |
| CommandRate.Limiter.AllowTelegramCommand | src/telegram_commands.cpp:120-145 | Decides on the found entry and records the command only if allowed. |
| CommandRate.AgreesWithUnboundedMemory | src/telegram_commands.cpp:118-145 | While at most 16 chats send commands, the table decides like an unbounded per-chat memory; a new chat is allowed. |
| CommandRate.AllowedApart | src/telegram_commands.cpp:118-145 | Two allowed commands of a chat in a row are at least the interval apart in real time. |
| CommandRate.NewChatRefused | src/telegram_commands.cpp:118-145 | Facing a full table a new chat is judged by the least recent entry of another chat. |
| CommandRate.SeventeenthChatRefused | src/telegram_commands.cpp:118-145 | Once 16 chats have each sent a command within the interval, the first command of a 17th is refused. |
| CameraTasks.Slot.RequestLiveConfigReload | src/camera.cpp:18-27 | Staging replaces what was waiting. |
| CameraTasks.Slot.RunTask | src/camera.cpp:561-632 | One lock section of a task: take, apply, stop, exit, in the source's order. |
| CameraTasks.Slot.ContinueRequest | src/webserver_cameras.cpp:528-600 | What a save, a delete or a bulk edit does to the slot, part by part, after its first one. |
| CameraTasks.StagedOnce | src/camera.cpp:18-50 | In every interleaving each staged configuration has exactly one fate (applied, superseded, waiting, in a task's hands), and what waits is the newest. |
| CameraTasks.OneTaskPerSlot | src/webserver_cameras.cpp:512-556 | When saves find the previous request consumed, carry credentials and tasks can be created, and no bulk edit hands a running slot an imported configuration that is disabled or lacks credentials: never two tasks, and at rest a task exists exactly when the in-memory flag, and unless an import came after the last save, when the stored configuration, is enabled. |
| CameraTasks.LiveIsStored | src/camera.cpp:612-632 | When deletes and bulk edits wait, too, a running slot at rest runs exactly the stored configuration, unless an import came after its last save. |
| CameraTasks.NewestWins | src/camera.cpp:18-50 | The task applies configurations in the order they were staged. |
| CameraTasks.SecondTaskExactly | src/webserver_cameras.cpp:518-545 | A save gives the slot a second task if and only if it enables the camera while the in-memory flag is clear and a task is still there. |
| CameraTasks.SecondSaveSpawnsTwice | src/webserver_cameras.cpp:518-545 | A second save before the spawned task has applied its configuration gives the slot two tasks. |
| CameraTasks.SecondTaskAtBootExactly | src/main.cpp:91-102 | setup() gives a slot a second task if and only if a task is there already and has set the flag. |
| CameraTasks.SaveDuringStartupSpawnsTwice | src/main.cpp:91-102 | A save of a disabled camera that setup() has not reached yet brings that about. |
| CameraTasks.EnableWithoutTaskExactly | src/webserver_cameras.cpp:518-545 | An enabling save that gives no second task leaves the slot, once at rest, without any if and only if a stop waits, the flag is set without a task, the task is leaving, or its start finds no credentials; otherwise the task runs what was saved. |
| CameraTasks.DisableWithTaskExactly | src/webserver_cameras.cpp:546-550 | A disabling save leaves the slot with a task if and only if the flag is clear though a task is there that will stay. |
| CameraTasks.EnableBeforeStopConsumedIsLost | src/camera.cpp:598-610 | Disable and enable again before the stop is consumed: the camera is enabled in the store and has no task. |
| CameraTasks.BootWithoutTaskExactly | src/camera.cpp:566-582 | setup() leaves a slot without a task if and only if it is disabled, no task can be created, a stop waits, or the credentials are missing. |
| CameraTasks.NoCredentialsNoTask | src/camera.cpp:573-582 | A task that finds no credentials leaves the flag set; adding them later only stages. |
| CameraTasks.ImportSplitsExactly | src/config_backup.cpp:102-110 | After an import at rest the slot goes on as it was; a task exists exactly when the stored configuration is enabled if and only if the import did not flip it. |
| CameraTasks.BulkAfterImport | src/webserver_cameras.cpp:586-600 | A bulk edit after an import hands the imported configuration to the running task, and the next enabling save gives a second task if and only if the import had disabled the camera. |
| CameraRoster.Roster.StagePendingNewCamera | src/camera_tasks.cpp:45-58 | Stages unless the (possibly stale) size has reached the capacity. |
| CameraRoster.Roster.ApplyPendingNewCameraIfAny | src/camera_tasks.cpp:60-89 | Adds the staged camera unless the capacity is used up, then drops it. |
| CameraRoster.NeverReallocates | src/camera_tasks.cpp:45-89 | In every run the vectors stay within what was reserved, keep their elements in place, and every accepted camera was added, replaced, dropped for lack of room or still waits. |
| RetryQueue.Queue.EnqueueFailedMessage | src/telegram_retry_queue.cpp:22-29 | Appends, evicting the oldest at capacity. |
| RetryQueue.Queue.Settle | src/telegram_retry_queue.cpp:51-57 | A copy is to be removed if it was delivered or is older than 24 hours. |
| RetryQueue.Queue.RemoveById | src/telegram_retry_queue.cpp:32-38 | Removes that message only, if it is still queued. |
| RetryQueue.NoneLost | src/telegram_retry_queue.cpp:22-58 | With enqueues at any point of a flush: within capacity, rising ids, and queued if and only if issued and neither evicted, delivered nor expired (but for the one being settled). |
| RetryQueue.DeliveredOnce | src/telegram_retry_queue.cpp:40-58 | No message is delivered twice or after it expired, and none expires before its real age exceeds 24 hours. |
| Alerts.CameraState.TriggerMotionAlert | src/telegram_alerts.cpp:100-181 | Which paths spend the cooldown, arm or disarm the digest, and count. |
| Alerts.CameraState.BeginCameraAlert | src/telegram_alerts.cpp:309-324 | Spends the cooldown exactly when it reports someone to tell. |
| Alerts.CameraState.CheckPendingMotionDigest | src/telegram_alerts.cpp:436-466 | One flush per cycle; what is sent is the count and duration at that moment. |
| Alerts.CooldownApart | src/telegram_alerts.cpp:100-186 | In every run two consecutive alerts of a camera, by whichever paths, are at least the clamped cooldown apart in real time. |
| Alerts.CoolingExact | src/telegram_alerts.cpp:109 | The cooldown test is exact below 2^32 ms since the last alert, and wrong for one cooldown after that. |
| Alerts.ExactlyOneFate | src/telegram_alerts.cpp:109-181 | Every event suppressed while armed is pending or in exactly one settlement: reported, new cycle, quiet hours, or silenced; the counter counts the pending ones. |
| Alerts.DigestTellsTheTruth | src/telegram_alerts.cpp:436-466 | A digest counts exactly the events it covers, and its duration is below the cooldown that suppressed the last of them if and only if no alert has spent the cooldown after it. |
| Alerts.TamperGarblesDigest | src/telegram_alerts.cpp:322 | A four-event run whose digest reports 2^32 - 25000 ms of motion. |
| OfflineDetector.CameraTask.LoopPass | src/camera.cpp:598-718 | One turn of the loop with WiFi: edit, then poll and renew or retry with backoff, then the OFFLINE check. |
| OfflineDetector.CameraTask.WifiDownPass | src/camera.cpp:634-643 | One without: the subscription is given up and nothing is checked. |
| OfflineDetector.CameraTask.CheckOnlineStatus | src/telegram_alerts.cpp:361-390 | OFFLINE exactly when the clock shows the enforced threshold since the last contact. |
| OfflineDetector.NoFalseOffline | src/camera.cpp:598-718 | With every request answered, an enforced threshold of at least 20 s, and passes and poll intervals of at most half of it, no run that starts with an edit, due for a retry, or recently answered ever reports OFFLINE, across polls, renewals, lost subscriptions, backoff, WiFi outages, edits and wraparound; right after an edit or outage a retry must be due or the silence leave room until it is. |
| OfflineDetector.NoFalseOfflineOnceDue | src/camera.cpp:485-504 | In particular after a subscription is lost with the last retry long ago. |
| OfflineDetector.PassExactly | src/camera.cpp:654-718 | A pass shorter than the threshold reports OFFLINE if and only if nothing is asked in it and the silence reaches the threshold. |
| OfflineDetector.EditAtCycleStartExactly | src/camera.cpp:612-690 | Such an edit reports OFFLINE in the same pass if and only if the silence so far reaches the new threshold: no retry comes first. |
| OfflineDetector.EditAtCycleStartFalseAlarm | src/camera.cpp:612-690 | It does for a camera that answered 25 s ago, when the threshold is lowered to 20 s. |
| OfflineDetector.OutageAtCycleStartFalseAlarm | src/camera.cpp:634-660 | So does the end of a ten-minute WiFi outage 5 s into a clock cycle, for a camera subscribed since the start. |
| OfflineDetector.SlowPollFalseAlarm | src/camera.cpp:550-555 | A poll interval of 30 s with a threshold of 20 s reports OFFLINE half a second before a poll. |
| OfflineDetector.ShortThresholdFalseAlarm | src/camera.cpp:654-690 | With a 10 s threshold two passes are enough for a false OFFLINE. |
| OfflineDetector.RetryDelay | src/camera.cpp:668-689 | After k refused attempts since the last success, start or edit the delay is min(10 s * 2^(k-1), cap), the cap between 10 s and 5 min. |
| SdCredit.ContactClock.BeginPush | src/snapshot_history.cpp:96-103 | The start of a push: the reading kept for its end. |
| SdCredit.ContactClock.CreditWait | src/snapshot_history.cpp:96-107 | The end of a push adds the clock's measure of the wait to the contact reading as it then is. |
| SdCredit.OfflineExactly | src/snapshot_history.cpp:96-107 | In every interleaving of answers and pushes the check discounts the waits credited since the last answer, until they exceed the silence; then it reports OFFLINE for any excess up to 49 days less the threshold. |
| SdCredit.OnePushExactly | src/snapshot_history.cpp:96-107 | A push that overlaps no other moves the contact past now, and the camera is OFFLINE at once, if and only if the camera answered after the push began; the camera's own pushes never do. |
| SdCredit.OwnPushesDiscounted | src/snapshot_history.cpp:96-107 | In every run in which only the camera's own task pushes, the credit stays within the silence. |
| SdCredit.AnswerDuringPushFalseAlarm | src/telegram_commands.cpp:190 | A /snap that waits 30 s for the card while the camera answers makes a camera heard from 10 s ago OFFLINE. |
| SdCredit.OverlapExactly | src/snapshot_history.cpp:96-107 | Two overlapping pushes without an answer pass now if and only if the time they share exceeds the silence before them. |
| Calendar.ClosedFormCountsDays | lib/rtc_ds3231/rtc_ds3231.cpp:31-42 | The era arithmetic is the number of days counted one by one from 1970-01-01, for every valid date from then on. |
| Calendar.NextDayIsOneMore | lib/rtc_ds3231/rtc_ds3231.cpp:35-42 | The next day's number is one more, in every year. |
| Calendar.LaterDateLarger | lib/rtc_ds3231/rtc_ds3231.cpp:35-42 | Day numbers are strictly monotone over all valid dates. |
| Calendar.LaterTimeLarger | lib/rtc_ds3231/rtc_ds3231.cpp:44-47 | timeGmUtc orders valid times exactly as the calendar does, and tells different ones apart. |
| Calendar.Ds3231RoundTrip | lib/rtc_ds3231/rtc_ds3231.cpp:3-63 | Writing a valid time to the registers and reading it back gives it back if and only if its year is 2000 to 2099. |
| Calendar.TwelveHourModePm | lib/rtc_ds3231/rtc_ds3231.cpp:53-63 | A 12-hour PM register decodes to the hour plus 20, out of range from 4 PM on. |
| HttpDate.ParsePrinted | lib/http_date_parse/http_date_parse.cpp:15-54 | Every printed IMF-fixdate (section 5.6.7 of RFC 9110) is read back, under any day name. |
| HttpDate.ParsedIsPrinted | lib/http_date_parse/http_date_parse.cpp:15-54 | Nothing but a printed date within the loose ranges is accepted. |
| HttpDate.SameInstant | lib/http_date_parse/http_date_parse.cpp:46-53 | A printed valid time is read as the same instant, and the battery clock gives it back if and only if the year is 2000 to 2099. |
| SnapshotPruning.FilesToPrune | lib/snapshot_storage/snapshot_storage.cpp:36-45 | The names of the shortest prefix that frees the bytes, or as much of one as the limit allows. |
| SnapshotPruning.PrunesNoMoreThanNeeded | src/sd_store.cpp:292-303 | No file goes that neither space nor the ceiling asked for; only the limit of five stops short of both. |
| SnapshotPruning.CameraHistory.EnsureDirAndPrune | src/sd_store.cpp:284-313 | The survivors of trying to delete exactly that prefix, and whether today's folder is still there. |
| SnapshotPruning.CameraHistory.WriteSnapshot | src/sd_store.cpp:345-378 | The whole new state of files and card is the step function's: the file is stored exactly when its folder can be made and survives the pruning and the write works, and any failure gives the card up until the next boot. |
| SnapshotPruning.DeletesOldest | src/sd_store.cpp:284-313 | Exactly the oldest names are tried, and what is left is the rest and the tried files whose delete failed; none tried sorts after one that was not. |
| SnapshotPruning.StepCount | src/sd_store.cpp:298-303 | A write that gets to prune leaves at most 300 files, or one fewer than a larger number, but for its failed deletes. |
| SnapshotPruning.Converges | src/sd_store.cpp:298-303 | Over any run, with deletes, writes and the card failing anywhere, the count is within 300 or has shrunk by one per pruning write, but for the deletes that failed. |
| SnapshotPruning.HistoryIsWindow | src/sd_store.cpp:284-378 | While names ascend and deletes work, whatever writes fail, the card holds every file that was stored except some number of the oldest. |
| SnapshotPruning.DayDirLost | src/sd_store.cpp:233-256 | Today's folder is gone after pruning if and only if one of today's files was deleted and none of today's is left. |
| SnapshotPruning.StoredExactly | src/sd_store.cpp:345-378 | An otherwise sound write is stored if and only if none of the files deleted for it is of its own day or some file of that day stays. |
| SnapshotPruning.OnlyTodaysFileLost | src/sd_store.cpp:284-378 | A camera whose only file is of today loses it, the new one and the card until the next boot, whenever space is short. |
| SnapshotNames.EarlierSortsFirst | src/sd_store.cpp:315-323 | Name order is capture order whenever the local seconds differ. |
| SnapshotNames.SameSecond | src/sd_store.cpp:322 | Within one second it is if and only if the two millis() readings have the same number of digits. |
| SnapshotNames.NameReadsBack | lib/snapshot_storage/snapshot_storage.cpp:47-66 | The time in a written name is read back exactly. |
| SnapshotNames.FilesToExpire | lib/snapshot_storage/snapshot_storage.cpp:68-80 | Keeps the order and yields exactly the names older than the retention; none for a retention of 0 or a name without a time. |
| SnapshotNames.WrittenFileExpires | lib/snapshot_storage/snapshot_storage.cpp:68-80 | A file the board wrote expires exactly when its capture time is more than the retention before now. |
| SnapshotRing.Ring.Push | src/snapshot_history.cpp:11-34 | The contents become the new snapshot followed by the previous ones, at most five. |
| SnapshotRing.Ring.Read | src/snapshot_history.cpp:41-58 | Reading at an age gives the snapshot that many pushes back, if it is still held. |
| SnapshotRing.LastFive | src/snapshot_history.cpp:11-34 | After any pushes the ring holds the last five, newest first. |
| TimedMute.MinutesToken | lib/telegram_parse/telegram_parse.cpp:197-210 | A plain number is accepted exactly from 1 to 20160 minutes, however many digits it has. |
| TimedMute.ClockToken | lib/telegram_parse/telegram_parse.cpp:212-233 | HH:MM is accepted exactly for a real time of day on a synced clock, and its delay of 1 to 86400 s lands on that time. |
| TimedMute.LandsOnce | lib/telegram_parse/telegram_parse.cpp:225-228 | That delay is unique. |
| TimedMute.OtherTokens | lib/telegram_parse/telegram_parse.cpp:193-216 | Nothing else is accepted. |
| TimedMute.AcceptedRange | lib/telegram_parse/telegram_parse.cpp:193-233 | An accepted delay is positive and below 2^31 ms. |
| TimedMute.CameraState.ApplyOnOff | src/telegram_commands.cpp:239-247 | A command sets the alerts and replaces any timer. |
| TimedMute.CameraState.ReadTimer | src/telegram_commands.cpp:690-699 | The first lock section: what is due, and what it will revert to. |
| TimedMute.CameraState.ApplyRevert | src/telegram_commands.cpp:701 | The second one. |
| TimedMute.NeverEarly | src/telegram_commands.cpp:689-712 | In every run, however the sections interleave with commands, no timer reverts before it was meant to. |
| TimedMute.FiresWhenDue | src/telegram_commands.cpp:698-699 | Within 2^31 ms a check fires if and only if the due time has come and does not read 0. |
| TimedMute.LateCheckWaits | src/telegram_commands.cpp:699 | A check later than that does not fire until the clock comes round. |
| TimedMute.LatestCommandWins | src/telegram_commands.cpp:689-712 | In every run, commands anywhere: alerts and timer are as the latest command left them, or the opposite and off once its own timer has run out, if and only if no check that the command came into the middle of has then undone it (by reverting to other than it set, or dropping a timer it set). |
| TimedMute.CommandBetweenExactly | src/telegram_commands.cpp:694-701 | A command between the two sections survives if and only if it sets what the check reverts to and no timer. |
| TimedMute.CommandBetweenIsLost | src/telegram_commands.cpp:694-701 | A run from boot in which a camera muted for good as its timed mute runs out ends with its alerts on. |
| OutageWatchdog.Watchdog.CheckAndMaybePulse | src/net_watchdog.cpp:120-160 | One check: start, pulse, restart, recovery. |
| OutageWatchdog.PulsesApart | src/bridge_watchdog.cpp:129-189 | While no outage starts or pulses at a clock reading of 0, a pulse comes at least the clamped threshold after its outage began and after the pulse before it. |
| OutageWatchdog.RecoveriesExact | src/net_watchdog.cpp:127-138 | Then each outage is reported recovered once, with its true start, however many pulses it took. |
| OutageWatchdog.ForgottenGoesUnreported | src/net_watchdog.cpp:127-158 | And only then: after the first check that starts an outage or pulses at a clock reading of 0 the next recovery goes unreported. |
| OutageWatchdog.PulsesWhenDue | src/net_watchdog.cpp:146-158 | A failing check pulses exactly when the threshold has passed. |
| OutageWatchdog.PulseAtZeroLosesOutage | src/net_watchdog.cpp:154-158 | A pulse at a clock reading of 0 loses the recovery report. |
| OutageWatchdog.OutageFromZeroForgotten | src/net_watchdog.cpp:140-144 | An outage that begins at a clock reading of 0 is not noticed, and its recovery never reported. |
| PowerMonitor.Monitor.CheckPowerStateChanged | src/power_monitor.cpp:101-124 | One sample: agree, start disagreeing, wait, confirm. |
| PowerMonitor.ConfirmedAfterDebounce | src/power_monitor.cpp:101-124 | While no disagreement starts at a clock reading of 0, a change is confirmed only after every sample over at least 30 s disagreed. |
| PowerMonitor.ConfirmedIsStable | src/power_monitor.cpp:101-124 | The confirmed state is always the last reading that was stable for 30 s. |

## Left out

- TLS, HTTP, SOAP, multipart, UDP discovery, I2C and SPI: their success or failure is a parameter of the steps.
- HTML, forms, translations, JSON and the getUpdates wire format: text assembly and decoding only.
- The wording of the export's prose and its redacted addresses: any lines that are no marker, and that the section
  they fall into does not take for a record.
- `begin()` of a namespace may fail, but a failed read of an existing key is not modelled.
- The key names of the small settings stores are a datatype instead of strings.
- The order std::sort gives equal names: the model keeps their order; with distinct names there is only one order.
- restoreMissingCamerasFromSeed: a one-time loop over addCamera.
- VERBOSE_SOAP_LOG, a build-time switch that opens the body-wide gate of parseEvents: taken as off.
- PSRAM running low, and empty snapshots: `SnapshotRing` covers what is pushed.
- The width of time_t, of file sizes and of byte totals on the card: unbounded numbers.
- mktime, localtime and daylight saving: an uninterpreted conversion in `SnapshotNames`.
- Ids of the retry queue after 2^32 - 1 enqueues: the ids wrap, and `RetryQueue.NoneLost` and
  `RetryQueue.DeliveredOnce` are stated before that. A message evicted between its delivery and the removal counts
  as both delivered and evicted.
- Persisting the on/off state beside the timers, the cross-camera digest window, subscription health, the motion
  watchdog and the daily digest: few-branch facts next to the machines modelled here.
- parseProfiles, command-name matching and chat-id matching: string lookups with no state.
- Hash collisions of camera folder names: a folder belongs to one camera.
- Whether opening a file recreates a missing folder: the SD library is not part of this model.
- A snapshot in flight, and the timelapse and snapshot-URI retries of the camera loop: `OfflineDetector` counts them as
  time a pass takes.
- OfflineDetector.NoFalseOffline: a start counts as an edit; a subscribed pass during which the clock comes round to
  lastRetry's reading, once in 49 days, must leave 10 s of half the threshold.
- Blocks that name two topics or hold a second state attribute before the value: `RenderedEvents` covers the others,
  `CameraEvents.BatchRead` any block by what the parser's search finds in it.
- A camera deleted and added again under the same name is found in its dead slot first: `CameraTasks` models one slot
  that belongs to one stored record, and `CameraRoster` only adds.
- TelegramDelivery.ExactlyOnce: successful offset writes before a restart are required, as `UnsavedResetLoops` shows.
