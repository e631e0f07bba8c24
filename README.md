# StreamCapture recording orchestration, modelled in Dafny

StreamCapture records scheduled live shows from a streaming service. The model covers its orchestration core:

- **Planning** (`Recordings`, `RecordInfo`, `Keywords`, `Channels`): the show listing is matched against keyword rules. Matching shows are filed in a dictionary keyed by name and start time. A queue is then built: live shows, ordered by keyword priority, inserted by start time, and gated by a check on concurrent captures.
- **Server and channel ranking** (`ServerChannelSelector`, `Servers`, `ChannelHistory`): a list of (server, channel, historical rate) entries is built, preferred channels first. The list is walked one entry at a time, then pinned to the best entry. Per-channel history is created lazily.
- **Capture supervision** (`Recorder`), covering:
  - the dispatch pass and the next wake-up hour of the monitor loop;
  - the bounded retry and fail-over loop of `CaptureStream`, with its server-then-channel switching;
  - the index selection of `GetNextServer` and `GetNextChannel`;
  - the liveness check run by the capture timer;
  - placeholder substitution in the capture command line;
  - the segment list that `FixUp` concatenates.
- **Segment bookkeeping** (`VideoFiles`): a counter and an append-only list of numbered capture files.

Modelling conventions:
- Times are whole minutes, and `now` is a parameter.
- Parsed strings carry both their text and their value.
- Process, file-system and clock outcomes are inputs.
- A .NET `Dictionary` is an insertion-ordered dictionary (`Common.Dict`), because enumeration order decides several results:
  - the last matching keyword rule wins;
  - channel groups keep their order;
  - the queue's input order depends on it.
- C# `long` division truncates toward zero, so it is `Common.TruncDiv`.

Files:
- `common.dfy`: options, truncating division, the running average, the ordered dictionary.
- `text.dfy`: `Split`, `Join`, `Replace`, case-insensitive containment.
- `recordinfo.dfy`: `RecordInfo.cs`.
- `channels.dfy`: `Channels.cs`.
- `keywords.dfy`: `Keywords.cs`.
- `servers.dfy`: `Servers.cs`.
- `history.dfy`: `ChannelHistory.cs`.
- `selector.dfy`: `ServerChannelSelector.cs`.
- `recordings.dfy`: `Recordings.cs`.
- `recorder.dfy`: `Recorder.cs`.
- `capturetimer.dfy`: `CaptureProcessInfo.cs` and `OnCaptureTimer`.
- `videofiles.dfy`: `VideoFiles.cs`.

## Model

| member | source | states |
|---|---|---|
| Common.TruncDiv | Recorder.cs:505 | the quotient truncates toward zero: bounds for non-negative and negative dividends, and its sign |
| Common.Avg | ServerChannelSelector.cs:45-46 | `(avg + observed) / 2` stays between its two inputs and is non-negative when both are |
| Common.Dict.Values | Recordings.cs:124 | the values in key-insertion order, one per key |
| Common.Dict.Get | Recordings.cs:31 | `TryGetValue`: found exactly when the key is present, with the stored value |
| Common.Dict.Upsert | Recordings.cs:99-105 | overwrite keeps the key order; add appends the key; the count grows by one exactly when the key was absent |
| Common.Dict.Remove | Recordings.cs:107-110 | the key is gone, a missing key changes nothing, and the count drops by one exactly when the key was present |
| Common.CountIsMapSize | Channels.cs:129-132 | the dictionary's count is the number of distinct keys |
| Text.Split | Servers.cs:15 | `Split` yields at least one piece and no piece contains the separator |
| Text.JoinSplit | Servers.cs:15 | joining the pieces of a split with the separator gives back the string |
| Text.SplitJoin | Servers.cs:15 | splitting a join of separator-free pieces gives back the pieces |
| Text.ReplaceAbsent | Recorder.cs:358-361 | `Replace` with a pattern that does not occur leaves the string unchanged |
| Text.ReplaceSplice | Recorder.cs:358-361 | an occurrence of the pattern is replaced and scanning continues after it |
| Text.ReplaceRemoves | Recorder.cs:358-361 | after replacing with a value that shares no character with the pattern, the pattern no longer occurs |
| Text.ReplacePieces | Recorder.cs:358-361 | replacing a `[NAME]` placeholder in a text built from placeholders and `[`-free pieces substitutes exactly that placeholder's pieces |
| Text.RemoveCharSpec | Recordings.cs:85-88 | removing one character keeps exactly the other characters |
| Text.ReplaceChar | Recordings.cs:82 | `Replace(' ', '_')` maps each character independently and keeps the length |
| Records.NewRecordInfo | RecordInfo.cs:33-46 | a new record has every flag false, offset "0", empty preferences and category, the tick count as id, and no channels |
| Records.GetStartDT | RecordInfo.cs:48-65 | start = parsed start − pre-roll + offset hours; no start text gives now |
| Records.GetEndDT | RecordInfo.cs:67-80 | end = parsed end + offset hours (no post-roll); no end text gives now |
| Records.GetDuration | RecordInfo.cs:83-88 | duration = runtime + pre-roll + post-roll |
| Records.PreRollShiftsStartOnly | RecordInfo.cs:56-58 | a longer pre-roll moves the start earlier by exactly that much and leaves the end alone |
| Records.PostRollNotInEnd | RecordInfo.cs:67-88 | the post-roll never changes the end, only the duration |
| Records.GetChannelString | RecordInfo.cs:91-100 | each channel description followed by a space, in list order |
| ChannelStore.PadChannel | Channels.cs:98-100 | a one-character channel gets a leading "0"; other keys are kept |
| ChannelStore.BuildChannelInfo | Channels.cs:114-127 | number is the padded channel; description is `number (quality/lang) `; ratio 0; tags copied |
| ChannelStore.AddUpdate | Channels.cs:96-112 | upsert under the padded key; other keys unchanged; the count grows by one exactly when the padded key was absent |
| ChannelStore.OrderByNumber | Channels.cs:76 | `OrderBy(number)` is a sorted permutation |
| ChannelStore.SortedChannelsSpec | Channels.cs:55-81 | `GetSortedChannels` returns every stored channel exactly once, in three consecutive groups; only the first is ordered by number |
| ChannelStore.Blocks | Channels.cs:76-78 | concatenating the three group lists puts each channel in its group's block |
| ChannelStore.ChannelTextAppend | Channels.cs:48-49 | the channel string of a concatenation is the concatenation of the channel strings |
| ChannelStore.Channels.constructor | Channels.cs:25-30 | a new channel set is empty |
| ChannelStore.Channels.LoadChannels | Channels.cs:33-40 | the built infos are discarded: the dictionary is unchanged |
| ChannelStore.Channels.AddUpdateChannel | Channels.cs:90-94 | stores the built info under the padded key |
| ChannelStore.Channels.AddUpdateChannelInfo | Channels.cs:96-112 | sets the padded key, leaves every other key alone, and grows the count exactly when the key was new |
| ChannelStore.Channels.GetChannel | Channels.cs:83-88 | the stored info for the exact unpadded key, or none; a one-character key is never found |
| ChannelStore.Channels.GetNumberOfChannels | Channels.cs:129-132 | the number of stored channels |
| ChannelStore.Channels.GetSortedChannels | Channels.cs:55-81 | the three-group order of the stored channels, a permutation of them |
| ChannelStore.Channels.GetChannelString | Channels.cs:43-52 | the channel string of the sorted channels |
| Keywords.ExcludeLoopSpec | Keywords.cs:37-48 | the exclude flag is set exactly when some non-empty exclude term occurs in the name, ignoring case |
| Keywords.KeywordLoopSpec | Keywords.cs:33-56 | the keyword loop selects a rule exactly when some keyword occurs and no exclude term does |
| Keywords.RuleSelectedIff | Keywords.cs:30-56 | a rule is selected exactly when it matches the name |
| Keywords.FindMatchIsLastMatch | Keywords.cs:28-59 | `break` leaves only the keyword loop, so the last matching rule in dictionary order is returned |
| Keywords.LastMatchSpec | Keywords.cs:28-59 | no result exactly when no rule matches; otherwise the result matches and no later rule does |
| Keywords.FindMatchSpec | Keywords.cs:23-60 | null exactly when no rule matches; otherwise a stored rule that matches, with no later rule matching |
| Keywords.FindMatch | Keywords.cs:23-60 | the rule loop with its inner keyword and exclude loops: null when no rule matches, otherwise the last stored rule that matches (the contract is carried by `Keywords.FindMatchSpec` and `Keywords.FindMatchIsLastMatch`) |
| Keywords.EmptyKeywordMatchesAll | Keywords.cs:35 | an empty keyword matches every name that is not excluded |
| Keywords.EmptyExcludeTermsIgnored | Keywords.cs:43 | exclude lists made only of empty terms exclude nothing |
| ServerStore.Servers.constructor | Servers.cs:11-20 | one server per comma piece, in order, each with rate 0; at least one server |
| ServerStore.Servers.GetServerList | Servers.cs:22-26 | the stored list itself |
| ServerStore.ServerNames | Servers.cs:15-19 | the names joined by commas give back the configured string, and none contains a comma |
| ServerStore.SingleServer | Servers.cs:15-19 | a string without commas, the empty one included, gives exactly one server |
| History.FreshInfo | ChannelHistory.cs:46-53 | a new entry has the channel, zero attempts and errors, both times set to now, and is active |
| History.LookupSpec | ChannelHistory.cs:40-59 | get-or-create adds the queried key only, returns the stored entry for a seen channel, and a fresh one otherwise |
| History.LookupIdempotent | ChannelHistory.cs:40-59 | a second lookup of the same channel changes nothing and returns the same entry |
| History.ChannelHistory.constructor | ChannelHistory.cs:23-33 | the loaded map, or an empty map when loading fails |
| History.ChannelHistory.GetChannelHistoryInfo | ChannelHistory.cs:40-59 | returns the lookup result and stores the created entry; a seen channel leaves the map unchanged |
| History.ChannelHistory.SetChannelHistoryInfo | Recorder.cs:253-254 | a caller's in-place update of a returned entry, written back under its channel |
| Selector.IsPreferred | ServerChannelSelector.cs:141-160 | the nested preference loops over the comma tokens |
| Selector.LangLoopSpec | ServerChannelSelector.cs:149-156 | the inner loop succeeds exactly when the quality token matches and some language token occurs in the language |
| Selector.QualityLoopSpec | ServerChannelSelector.cs:147-157 | the outer loop succeeds exactly when some quality token and some language token match |
| Selector.IsPreferredIff | ServerChannelSelector.cs:141-160 | preferred exactly when some quality token occurs in the quality tag and some language token in the language, ignoring case |
| Selector.EmptyPreferencesPreferAll | ServerChannelSelector.cs:141-160 | empty preferences make every channel preferred |
| Selector.InsertAtKeepsOrder | ServerChannelSelector.cs:126-133 | inserting before the first strictly smaller rate keeps the list non-increasing |
| Selector.AppendKeepsOrder | ServerChannelSelector.cs:137 | appending a rate no larger than all others keeps the list non-increasing |
| Selector.InsertFromOrder | ServerChannelSelector.cs:118-139 | `InsertChannelInfo` keeps the list non-increasing by rate |
| Selector.InsertFromContents | ServerChannelSelector.cs:118-139 | the old entries stay, and exactly one entry of this channel is added for each server from the first up to the one whose entry landed inside the list (or the last), each with its server's history rate, so at most one per server |
| Selector.EarlyReturn | ServerChannelSelector.cs:124-135 | for all inputs: once a server's entry lands inside the list it is inserted before the first smaller rate and the method returns, so no later server of that channel is added |
| Selector.InsertChannelInfo | ServerChannelSelector.cs:118-139 | the insertion loop computes the insertion fold |
| Selector.BuildListsSpec | ServerChannelSelector.cs:92-103 | the preferred list holds only preferred channels' entries and the other list only the rest, each non-increasing |
| Selector.SortedTupleListSpec | ServerChannelSelector.cs:106-108 | preferred entries come first, each part is non-increasing by rate, and every entry refers to a real server and channel |
| Selector.BestUpToSpec | ServerChannelSelector.cs:67-76 | no pick exactly when no rate is positive; otherwise the first entry with the strictly greatest positive rate |
| Selector.ServerChannelSelector.constructor | ServerChannelSelector.cs:19-28 | builds the sorted list, starting at entry 0 unpinned |
| Selector.ServerChannelSelector.BuildSortedTupleList | ServerChannelSelector.cs:84-116 | the list is the preferred entries followed by the others; nothing else changes |
| Selector.ServerChannelSelector.GetServerName | ServerChannelSelector.cs:30-33 | the current entry's server name, or none when the index is past the end |
| Selector.ServerChannelSelector.GetChannelNumber | ServerChannelSelector.cs:35-38 | the current entry's channel number, or none when the index is past the end |
| Selector.ServerChannelSelector.SetAvgKBytesSec | ServerChannelSelector.cs:40-50 | the current channel's and server's averages become `(old + observed) / 2`; the stored entry rate, index and flag are unchanged |
| Selector.ServerChannelSelector.GetNextServerChannel | ServerChannelSelector.cs:52-83 | pinned: same entry, nothing changes; entries left: index + 1, unpinned; exhausted: pinned to the best positive-rate entry, or out of range when there is none |
| Planner.FirstAtLeastPosIs | Recordings.cs:246-252 | the insertion point is the first record with keyword position at least the new one's |
| Planner.InsertByPosOrder | Recordings.cs:244-262 | one insertion keeps the list ordered by keyword position |
| Planner.SortByPosUpToContents | Recordings.cs:238-264 | the keyword sort is a permutation of its input |
| Planner.SortByPosUpToOrder | Recordings.cs:238-264 | the keyword sort orders by keyword position |
| Planner.TiesReversed | Recordings.cs:238-264 | records with equal keyword positions end up in reverse input order |
| Planner.SortBasedOnKeywordPos | Recordings.cs:238-264 | the insertion loop yields a sorted permutation |
| Planner.FirstLaterIs | Recordings.cs:182-192 | the insertion point is the first record starting strictly later |
| Planner.InsertByStartContents | Recordings.cs:178-197 | adding a record adds exactly that record |
| Planner.InsertByStartOrder | Recordings.cs:178-197 | inserting after equal starts keeps a start-sorted list sorted |
| Planner.AddToSortedList | Recordings.cs:178-197 | a new list one longer with the record after every equal start; the original is left alone |
| Planner.Keep | Recordings.cs:218-226 | the kept end times are all after the start considered |
| Planner.RemoveFirstAfter | Recordings.cs:222-225 | `List.Remove` removes the first occurrence |
| Planner.InnerStep | Recordings.cs:218-226 | one inner-loop step removes exactly the scanned end when it has passed |
| Planner.IsConcurrencyOk | Recordings.cs:199-236 | the sweep equals the stack specification and never reads `recordingToAdd` |
| Planner.KeepAppend | Recordings.cs:218-226 | filtering distributes over concatenation |
| Planner.KeepKeep | Recordings.cs:218-226 | filtering at a later time subsumes an earlier filter |
| Planner.StackIsLiveEnds | Recordings.cs:212-235 | on a start-sorted list the stack holds exactly the ends still running |
| Planner.SortedStackCount | Recordings.cs:212-235 | the compared count is the record itself plus the earlier records still running at its start |
| Planner.ConcurrencyOkIff | Recordings.cs:199-236 | on a start-sorted list the check fails exactly when some record and the earlier ones running at its start exceed the ceiling |
| Planner.SpawnedFlagIgnored | Recordings.cs:146-153 | already spawned records are queued like any other |
| Planner.QueueContents | Recordings.cs:126-154 | every queued record is live and taken from the sorted list |
| Planner.QueueOrder | Recordings.cs:150-153 | the queue stays sorted by start |
| Planner.QueueFrozenOnceOver | Recordings.cs:132-153 | once the queue fails the check, every later candidate is rejected |
| Planner.OvershootAtMostOne | Recordings.cs:132-153 | the queue passes the check, or passed it just before its last addition |
| Planner.OvershootExample | Recordings.cs:132-153 | with one capture allowed, two overlapping live shows are both queued |
| Planner.DoneCount | Recordings.cs:134-138 | the number of finished records is at most the list length |
| Planner.RemovalFailureIff | Recordings.cs:126-138 | `RemoveAt` throws exactly when a finished record sits at or past the shrunken length |
| Planner.TwoFinishedShowsFail | Recordings.cs:134-138 | two finished shows make the second `RemoveAt(1)` throw on a list of one |
| Planner.RemovalStep | Recordings.cs:126-138 | one step of the as-written pass |
| Planner.QueueStep | Recordings.cs:126-154 | one step of the queueing pass |
| Planner.ShowsToQueueAsWritten | Recordings.cs:112-176 | as written: index out of range at the first failing `RemoveAt`, otherwise the queue |
| Planner.RemoveCharsSpec | Recordings.cs:85-88 | the loop removes exactly the listed characters |
| Planner.SanitizedName | Recordings.cs:82-88 | spaces become underscores, then every listed character goes |
| Planner.SanitizedNameSpec | Recordings.cs:82-88 | a character is in the file name exactly when it is in the name with spaces turned into underscores and is neither listed nor invalid for the platform |
| Planner.SanitizedNameClean | Recordings.cs:82-88 | no space or slash remains, and underscores from spaces survive unless forbidden |
| Planner.SanitizeFileName | Recordings.cs:82-88 | the file name has none of ``|'/\ ,<>#@!+&^*()~`;`` and none of the platform's invalid characters |
| Planner.FillSpec | Recordings.cs:61-79 | the filled record has the show key, gains the show's channel, takes the rule's rolls and the show's times, and keeps its flags |
| Planner.FileShowSpec | Recordings.cs:52-91 | filing adds the show's key only, gives it the show's channel, keeps its old channels, and leaves other records alone |
| Planner.FileShowKeeps | Recordings.cs:52-91 | filing keeps the dictionaries well formed and every record under its own key |
| Planner.ScheduledKeys | Recordings.cs:50-93 | afterwards every key was there before or is a matched show's name + time |
| Planner.ScheduledKeeps | Recordings.cs:50-93 | scheduling keeps the dictionaries well formed and keys matching |
| Planner.FileIfMatchedKeepsChannel | Recordings.cs:64 | handling a show never removes a channel from a filed record |
| Planner.ScheduledChannels | Recordings.cs:50-93 | a show listed on several channels is filed once, with all of them |
| Planner.UnmatchedShowsIgnored | Recordings.cs:55-56 | shows no rule matches leave the dictionary unchanged |
| Planner.Recordings.constructor | Recordings.cs:21-26 | no records |
| Planner.Recordings.GetRecordInfo | Recordings.cs:28-38 | the filed record, or a new one that is not filed |
| Planner.Recordings.AddUpdateRecordInfo | Recordings.cs:99-105 | sets the key, leaves other keys alone, and grows the count exactly when the key was absent |
| Planner.Recordings.DeleteRecordInfo | Recordings.cs:107-110 | removes the record's description + start key and nothing else |
| Planner.Recordings.GetShowsToQueue | Recordings.cs:112-176 | a fresh queue: live records from the dictionary, sorted by start, equal to the queue specification |
| Planner.Recordings.FileShowOf | Recordings.cs:52-92 | one pass of the listing loop files a matched show exactly as the filing step does, skips an unmatched one, and leaves the queue alone |
| Planner.Recordings.BuildRecordSchedule | Recordings.cs:40-97 | files every matched show, then rebuilds the queue |
| Recorder.ShouldDispatch | Recorder.cs:83-86 | the dispatch test: ends after now, starts within the horizon, not yet spawned |
| Recorder.MarkAll | Recorder.cs:86-88 | each record is flagged exactly when it is dispatched |
| Recorder.DispatchPass | Recorder.cs:79-103 | the loop sets the flags and dispatches the qualifying records, in list order |
| Recorder.DispatchedSpec | Recorder.cs:79-93 | both directions: every qualifying record (not ended, within the window, unflagged) is dispatched, and every dispatched record is such a record with its flag set |
| Recorder.DispatchIdempotent | Recorder.cs:85-88 | on the list the pass leaves behind, a second pass dispatches nothing, and no record it dispatched passes the test again at any later moment |
| Recorder.MonitorPass | Recorder.cs:67-103 | one round of the monitor loop: the schedule is rebuilt and queued, the records passing the dispatch test are dispatched, and the new dictionary is the rebuilt one with exactly the dispatched records flagged |
| Recorder.SpawnedNotRedispatched | Recorder.cs:76-88 | a record flagged in the dictionary is never dispatched by a later round, whatever the listing and the clock |
| Planner.Recordings.SetProcessSpawned | Recorder.cs:88 | the flag set on a queued record lands on the filed record it shares, and nothing else changes |
| Planner.FileIfMatchedKeepsSpawned | Recordings.cs:61-90 | filing a show into a flagged record keeps the flag |
| Planner.ScheduledKeepsSpawned | Recordings.cs:50-92 | a flagged record stays flagged through a whole schedule rebuild |
| Planner.QueuedAreFiled | Recordings.cs:124-157 | every queued record is the very record filed under its own description and start |
| Recorder.NextWake | Recorder.cs:106-128 | before the last hour: today at the first listed hour after the current one; otherwise tomorrow at the first hour; the `new DateTime` exception exactly when that hour is outside 0 to 23 |
| Recorder.BestFromSpec | Recorder.cs:382-390 | the `>=` scan picks the last maximum, provided it is non-negative |
| Recorder.NextPickSpec | Recorder.cs:366-395 | `(idx + 1, false)` while entries remain; otherwise the last non-negative maximum pinned, or `idx + 1` unpinned when all are negative |
| Recorder.NextOrBest | Recorder.cs:366-395 | the selection loop computes the pick |
| Recorder.GetNextChannel | Recorder.cs:366-395 | the pick over the channels' averages |
| Recorder.GetNextServer | Recorder.cs:397-427 | the pick over the servers' averages |
| Recorder.RecordAttempt | Recorder.cs:316-317 | the channel's entry is created if needed, then gets one more attempt and the attempt time |
| Recorder.RecordSuccess | Recorder.cs:332 | the channel's entry is created if needed, then gets the success time |
| Recorder.Switch | Recorder.cs:276-307 | the file number grows by one; indices stay in range; the history is unchanged |
| Recorder.RetryStep | Recorder.cs:273-318 | one retry keeps the indices in range, counts one file and restarts the clock |
| Recorder.Run | Recorder.cs:268-326 | a finished loop ends in a valid state |
| Recorder.SwitchOnlyWhenShort | Recorder.cs:280-281 | after 15 minutes or more, or with a channel pinned, neither server nor channel changes |
| Recorder.ShortFailureSwitches | Recorder.cs:281-307 | a short failure feeds both averages, advances the server until one is pinned, and only then the channel |
| Recorder.NoFaultWithNonNegativeRates | Recorder.cs:288-305 | with non-negative rates every retry step succeeds and the rates stay non-negative |
| Recorder.RunBounds | Recorder.cs:269-277 | the loop runs at most `numberOfRetries` times and stops only on that bound or once the clock passes the target end |
| Recorder.RunInWindow | Recorder.cs:269 | every retry starts at or before the target end |
| Recorder.RunPinned | Recorder.cs:281-306 | once the channel is pinned, server and channel never change again |
| Recorder.RunServerPinned | Recorder.cs:289-295 | once the server is pinned it never changes |
| Recorder.RunUnfold | Recorder.cs:269-326 | one iteration of the retry loop |
| Recorder.CaptureSpec | Recorder.cs:222-337 | no channels or a closed window fault; otherwise the returned count is within the retry bound, every counted pass is in the window, it stops only at the bound or the end, and the history was saved |
| Recorder.ChargeAttempt | Recorder.cs:253-254 | the history gains one attempt for the channel |
| Recorder.ChargeSuccess | Recorder.cs:332 | the history records the success time for the channel |
| Recorder.SwitchOnFailure | Recorder.cs:276-307 | the switching step computes the step function |
| Recorder.LoadServerList | Recorder.cs:245 | the server list is one server per comma piece of the setting, each with rate 0 |
| Recorder.CaptureFromStart | Recorder.cs:262-336 | from the first server and channel, the retry loop and its ending give the capture result of an open window |
| Recorder.FinishCapture | Recorder.cs:326-336 | after the loop, a fault returns no count and the history last saved; otherwise the final channel records a success and the count is returned |
| Recorder.RetryLoop | Recorder.cs:268-326 | the loop computes the loop function and leaves the history object holding its history |
| Recorder.CaptureStream | Recorder.cs:222-337 | the file count and the saved history are those of the capture specification |
| Recorder.StartState | Recorder.cs:224-254 | the initial state is valid |
| Recorder.Fill | Recorder.cs:357-363 | each placeholder piece becomes its value and other pieces stay |
| Recorder.CmdLineFilled | Recorder.cs:357-363 | on a template of placeholders and `[`-free text, with `[`-free values, the four replacements fill each placeholder with its value |
| Recorder.FillIsSubst | Recorder.cs:357-363 | the four substitutions in order equal the one-pass fill |
| Recorder.BuildCaptureCmdLineArgs | Recorder.cs:355-364 | the output path, server, channel and token placeholders replaced in that order; on a template whose values hold no `[` this fills each placeholder with its value (the contract is carried by `Recorder.CmdLineFilled` and `Recorder.FillIsSubst`) |
| Recorder.CmdLineOrder | Recorder.cs:357-363 | the replacements run in order: a server value containing `[CHANNEL]` is itself replaced |
| Recorder.CmdLineNoToken | Recorder.cs:361 | no `[AUTHTOKEN]` is left when the token shares no character with it |
| Recorder.Segments | Recorder.cs:547-549 | `numFiles + 1` segment paths, numbered 0 to `numFiles` |
| Recorder.FixUpFileList | Recorder.cs:544-549 | no list when `numFiles <= 0`; otherwise the segments in ascending order joined by '\|' |
| Recorder.FileListSplits | Recorder.cs:547-549 | splitting the file list on '\|' gives back the segments |
| CaptureTimer.KillDecision | Recorder.cs:482-513 | kill when time is up, the file is missing, or the rate is at most the acceptable rate |
| CaptureTimer.QuotientBelow | Recorder.cs:505 | a truncated quotient is below `m` exactly when the dividend is below `m` times the divisor |
| CaptureTimer.SlowGrowthIff | Recorder.cs:505-510 | for a non-shrinking file, the rate test fails exactly when it grew by less than `(acceptableRate + 1) * 1000 * interval` bytes |
| CaptureTimer.StalledFileKilled | Recorder.cs:505-510 | a file that did not grow is killed when the acceptable rate is not negative |
| CaptureTimer.CaptureProcessInfo.constructor | CaptureProcessInfo.cs:16-24 | the size seen so far and the average start at 0 |
| CaptureTimer.CaptureProcessInfo.OnCaptureTimer | Recorder.cs:477-523 | a kill is attempted exactly when the decision is positive and the process still runs; a sample updates the size and folds the rate into the average |
| Segments.Captures | VideoFiles.cs:24-30 | the records after adding paths in order: numbered by position, base name, `.ts` |
| Segments.CapturesSnoc | VideoFiles.cs:28-39 | adding a path appends one record numbered with the old count |
| Segments.VideoFiles.constructor | VideoFiles.cs:16-21 | no captures, count 0 |
| Segments.VideoFiles.CheckForDup | VideoFiles.cs:52-62 | changes nothing of the object: the renamed record is assigned to the local parameter only, so the caller keeps the original record |
| Segments.VideoFiles.AddCaptureFile | VideoFiles.cs:22-42 | returns and appends a `.ts` record numbered with the old count, and increments the count; count equals list length and numbers are positions |
| Segments.VideoFiles.SetConcatFile | VideoFiles.cs:75-85 | sets only the concat file, `.concat` |
| Segments.VideoFiles.SetMuxedFile | VideoFiles.cs:87-97 | sets only the muxed file, `.mp4` |
| Segments.VideoFiles.SetPublishedFile | VideoFiles.cs:99-109 | sets only the published file, `.mp4` |

## Left out

- Network, e-mail, JSON and the web front end are not modelled: `Authenticate`, `TestInternet`, `Schedule.LoadSchedule`, `Mailer`, `ChannelHistory.Save`, the controllers and the start-up code. The listing and the matcher are inputs to `BuildRecordSchedule`; the stored history is an input to `CaptureStream`.
- Processes, timers, threads and sleeping are not modelled: `ExecProcess`, `QueueRecording`, the timer wiring, `Task.Factory.StartNew`, `Thread.Sleep`. Each capture attempt is an input: when it ended and the rate it observed. The capture timer is modelled one tick at a time, with the clock, the file's existence and length, and whether the process still runs as inputs.
- File-system effects are not modelled: the renames in `BuildOutputPath`, the moves and deletes in `FixUp` and `DeleteCapturedFiles`, and the concat, mux and publish commands. `FixUp` is modelled only up to the file list it builds. `CheckForDup`'s existence test and the randomized name are inputs.
- FileManager.cs, VideoFileManager.cs, FileInfo.cs and Files.cs are not part of this model. Their only logic drives ffmpeg and file moves, or does not compile.
- VideoFileInfo.cs is not part of this model. Its fields are taken from the initialisers in `VideoFiles.cs`; an unset `fileNumber` is 0, the integer default.
- Floating point is not modelled: `hoursRecorded` and the hours arithmetic on it.
- Clock and parsing are inputs: each monitor pass uses one `now` instead of re-reading the clock, and `DateTime.Parse` and `Convert.ToInt32` are taken as already done.
- Recorder.CaptureStream: members that the source calls but that do not exist in the files shown become inputs, without reconciling them:
  - `GetSortedChannels` on the record: the channel array;
  - `Servers.GetServerName`: indexing the server list, which faults when out of range;
  - `Servers.SetAvgKBytesPerSec`: the `setServerAvg` function;
  - `Servers.GetNumberOfServers`: the length of the server list;
  - `Servers.GetServerAvgRate`: the stored `avgKBytesSec` of the server at that index;
  - `ChannelHistory.SetServerAvgKBytesSec`: left out, as it has no definition to follow.
- Recorder.CaptureStream: a `null` capture result when the target end has already passed is modelled as a fault with no count and no saved history.
- Recorder.CaptureStream: the record, channel and server objects are modelled as values threaded through the loop. Sharing of those objects with other captures is not captured.
- Selector.ServerChannelSelector: `ChannelHistory.GetAvgKBytesSec` and `recordInfo.channels.GetChannels` are inputs: a rate function and the channel list. Server and channel objects shared by several entries are modelled as indices into the selector's lists.
- Selector.ServerChannelSelector.SetAvgKBytesSec: requires the current index to be in range. The source throws otherwise, and that fault is not modelled.
- Planner.Recordings: `IsConcurrencyOk` reads the concurrent-captures setting and `GetShowsToQueue` reads the hours horizon; both are parameters.
- Planner.Recordings: the log lines, the schedule mail and the concurrent-show text are left out.
- Planner.Recordings.GetShowsToQueue: the method is the corrected version, without the `RemoveAt` on the list the loop no longer reads. The code as written is `Planner.ShowsToQueueAsWritten` (see Findings).
- Keywords: `FindMatch` in Recordings.cs returns a (rule, position) pair, while Keywords.cs returns the rule alone. `BuildRecordSchedule` takes the pair-returning matcher as an input, and Keywords.cs's own `FindMatch` is modelled separately.
- CaptureTimer.CaptureProcessInfo.constructor: CaptureProcessInfo.cs has no `interval` or `avgKBytesSec`, though Recorder.cs uses both. The model adds them as the recorder uses them: `interval` is 10 and the average starts at 0.
- ServerStore.Servers.GetServerList: returns the stored list as a value, so callers get a copy. An update a caller makes to a shared `ServerInfo` (such as `SetAvgKBytesPerSec`) is not seen through the `Servers` object.
- Text.LowerChar: lower-cases ASCII letters only, where .NET's culture-aware `ToLower` also maps other letters. `Keywords.FindMatch`, `Selector.IsPreferred` and the grouping in `ChannelStore.Channels.GetSortedChannels` can therefore differ from the source on non-ASCII names and tags.
- ChannelStore.StrLe: compares channel numbers by character code, where `OrderBy` uses the current culture's string comparer. `ChannelStore.OrderByNumber` agrees with the source on digit-only numbers of equal length, and can differ on mixed-case or non-digit numbers.
- Recorder.DispatchPass: the records are values, so the flags it sets are on its own copies; `Recorder.MonitorPass` writes them back to the dictionary with `Planner.Recordings.SetProcessSpawned`, which is how the shared objects of the source are modelled.
- Recorder.NextWake: `Convert.ToInt32` of the hour list is an input, and the list is required to be non-empty. `Split` never returns an empty array. A non-numeric hour, on which `Convert.ToInt32` throws, is not modelled; an hour outside 0 to 23 is, as `BadHour`.

## Findings

| source | as written | input that shows it | evidently intended | confidence | as-written member | corrected member |
|---|---|---|---|---|---|---|
| Recordings.cs:134-138 | `recordingList.RemoveAt(idx)` removes from the list being shortened while `idx` runs over the original length | two filed shows whose end is before now: after the first removal the list has one entry and `RemoveAt(1)` throws | finished shows are skipped: the removal has no reader, since the loop walks a copy | not executed | Planner.ShowsToQueueAsWritten, Planner.TwoFinishedShowsFail | Planner.Recordings.GetShowsToQueue |
