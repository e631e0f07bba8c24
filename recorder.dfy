/** Recorder.cs: the supervisor that dispatches captures, picks servers and
    channels when a capture fails, and assembles the command lines and the
    segment list. Times are whole minutes; the clock is a parameter. */
module Recorder {
  import opened Common
  import opened Text
  import opened Records
  import opened ChannelStore
  import opened ServerStore
  import opened History
  import Keywords
  import Planner

  // ---------------------------------------------------------------------
  // MonitorMode: dispatch pass

  /** A record is dispatched when it has not ended yet, starts within the
      look-ahead window and has not been dispatched before. */
  predicate ShouldDispatch(r: RecordInfo, now: int, hoursInFuture: int) {
    GetEndDT(r, now) > now && GetStartDT(r, now) <= now + 60 * hoursInFuture && !r.processSpawnedFlag
  }

  /** A record after the pass: dispatching sets its flag. */
  function Mark(r: RecordInfo, now: int, hoursInFuture: int): RecordInfo {
    if ShouldDispatch(r, now, hoursInFuture) then r.(processSpawnedFlag := true) else r
  }

  function MarkAll(list: seq<RecordInfo>, now: int, hoursInFuture: int): (out: seq<RecordInfo>)
    ensures |out| == |list|
    ensures forall i :: 0 <= i < |list| ==> out[i] == Mark(list[i], now, hoursInFuture)
  {
    seq(|list|, i requires 0 <= i < |list| => Mark(list[i], now, hoursInFuture))
  }

  /** The records handed to `QueueRecording`, in list order. */
  function Dispatched(list: seq<RecordInfo>, now: int, hoursInFuture: int): seq<RecordInfo>
    decreases |list|
  {
    if |list| == 0 then []
    else
      var rest := Dispatched(list[..|list| - 1], now, hoursInFuture);
      var r := list[|list| - 1];
      if ShouldDispatch(r, now, hoursInFuture) then rest + [Mark(r, now, hoursInFuture)] else rest
  }

  /** The pass over `recordInfoList` in `MonitorMode`: each record that should
      be dispatched gets its flag set and is queued for capture. */
  method DispatchPass(recordInfoList: seq<RecordInfo>, now: int, hoursInFuture: int)
    returns (updated: seq<RecordInfo>, queued: seq<RecordInfo>)
    ensures updated == MarkAll(recordInfoList, now, hoursInFuture)
    ensures queued == Dispatched(recordInfoList, now, hoursInFuture)
  {
    updated := [];
    queued := [];
    for n := 0 to |recordInfoList|
      invariant updated == MarkAll(recordInfoList[..n], now, hoursInFuture)
      invariant queued == Dispatched(recordInfoList[..n], now, hoursInFuture)
    {
      var recordInfo := recordInfoList[n];
      var showInFuture := GetEndDT(recordInfo, now) > now;
      var showClose := GetStartDT(recordInfo, now) <= now + 60 * hoursInFuture;
      var showQueued := recordInfo.processSpawnedFlag;
      assert recordInfoList[..n + 1][..n] == recordInfoList[..n];
      if showInFuture && showClose && !showQueued {
        recordInfo := recordInfo.(processSpawnedFlag := true);
        queued := queued + [recordInfo];
      }
      updated := updated + [recordInfo];
    }
    assert recordInfoList[..|recordInfoList|] == recordInfoList;
  }

  /** Every queued record has not ended, starts within the window and carries
      the flag; exactly the records meeting the dispatch test are queued:
      each qualifying record is queued, and each queued record is a
      qualifying one (unflagged before the pass) with its flag set. */
  lemma {:induction false} DispatchedSpec(list: seq<RecordInfo>, now: int, hoursInFuture: int)
    ensures forall r :: r in Dispatched(list, now, hoursInFuture) ==>
              r.processSpawnedFlag && GetEndDT(r, now) > now && GetStartDT(r, now) <= now + 60 * hoursInFuture
    ensures forall i :: 0 <= i < |list| && ShouldDispatch(list[i], now, hoursInFuture) ==>
              list[i].(processSpawnedFlag := true) in Dispatched(list, now, hoursInFuture)
    ensures forall r :: r in Dispatched(list, now, hoursInFuture) ==>
              exists i :: 0 <= i < |list| && ShouldDispatch(list[i], now, hoursInFuture) &&
                          r == list[i].(processSpawnedFlag := true)
    ensures |Dispatched(list, now, hoursInFuture)| <= |list|
    decreases |list|
  {
    if |list| > 0 {
      var init := list[..|list| - 1];
      DispatchedSpec(init, now, hoursInFuture);
      forall i | 0 <= i < |list| - 1
        ensures list[i] == init[i]
      {
      }
      forall r | r in Dispatched(list, now, hoursInFuture)
        ensures exists i :: 0 <= i < |list| && ShouldDispatch(list[i], now, hoursInFuture) &&
                            r == list[i].(processSpawnedFlag := true)
      {
        if r in Dispatched(init, now, hoursInFuture) {
          var i :| 0 <= i < |init| && ShouldDispatch(init[i], now, hoursInFuture) &&
                   r == init[i].(processSpawnedFlag := true);
          assert list[i] == init[i];
        } else {
          assert ShouldDispatch(list[|list| - 1], now, hoursInFuture);
        }
      }
    }
  }

  /** Re-running the pass at the same moment queues nothing: what it queued
      is flagged, and nothing else passes the test. At any later moment, no
      record queued by the first pass is queued again. */
  lemma {:induction false} DispatchIdempotent(list: seq<RecordInfo>, now: int, hoursInFuture: int)
    ensures Dispatched(MarkAll(list, now, hoursInFuture), now, hoursInFuture) == []
    ensures forall i, later, h :: 0 <= i < |list| && ShouldDispatch(list[i], now, hoursInFuture) ==>
              !ShouldDispatch(MarkAll(list, now, hoursInFuture)[i], later, h)
    decreases |list|
  {
    if |list| > 0 {
      var init := list[..|list| - 1];
      DispatchIdempotent(init, now, hoursInFuture);
      assert MarkAll(list, now, hoursInFuture)[..|list| - 1] == MarkAll(init, now, hoursInFuture);
    }
  }

  /** One round of the `MonitorMode` loop: the schedule is rebuilt, every
      queued record that should be dispatched is handed to a capture, and
      the flag the pass sets stays on the filed record, which the queue
      shares with the dictionary. */
  method MonitorPass(recordings: Planner.Recordings, shows: seq<Planner.ScheduleShow>,
                     findMatch: string -> Option<(Keywords.KeywordInfo, int)>, schedTimeOffset: Parsed,
                     platformInvalidChars: string, nowTicks: nat, now: int, hoursInFuture: int, maxConcurrent: int)
    returns (dispatched: seq<RecordInfo>)
    requires recordings.Valid() && Planner.KeysMatch(recordings.recordDict)
    modifies recordings
    ensures recordings.Valid() && Planner.KeysMatch(recordings.recordDict)
    ensures Planner.Scheduled(old(recordings.recordDict), shows, |shows|, findMatch, schedTimeOffset,
                              platformInvalidChars, nowTicks).Valid()
    ensures var filed := Planner.Scheduled(old(recordings.recordDict), shows, |shows|, findMatch, schedTimeOffset,
                                           platformInvalidChars, nowTicks);
            dispatched == Dispatched(Planner.ShowsToQueue(filed, now, hoursInFuture, maxConcurrent), now, hoursInFuture)
    ensures forall r :: r in dispatched ==> Planner.SpawnedAt(recordings.recordDict, RecordKey(r))
    ensures var filed := Planner.Scheduled(old(recordings.recordDict), shows, |shows|, findMatch, schedTimeOffset,
                                           platformInvalidChars, nowTicks);
            && recordings.recordDict.keys == filed.keys
            && recordings.recordDict.entries.Keys == filed.entries.Keys
            && (forall k :: k in recordings.recordDict.entries ==>
                  recordings.recordDict.entries[k] == Planner.FlaggedEntry(filed, k, dispatched))
            && recordings.queuedRecordings == Planner.ShowsToQueue(filed, now, hoursInFuture, maxConcurrent)
  {
    Planner.ScheduledKeeps(recordings.recordDict, shows, |shows|, findMatch, schedTimeOffset, platformInvalidChars, nowTicks);
    var recordInfoList := recordings.BuildRecordSchedule(shows, findMatch, schedTimeOffset, platformInvalidChars,
                                                         nowTicks, now, hoursInFuture, maxConcurrent);
    var updated;
    updated, dispatched := DispatchPass(recordInfoList, now, hoursInFuture);
    Planner.QueuedAreFiled(recordings.recordDict, now, hoursInFuture, maxConcurrent);
    DispatchedSpec(recordInfoList, now, hoursInFuture);
    forall r | r in dispatched
      ensures RecordKey(r) in recordings.recordDict.entries
    {
      var i :| 0 <= i < |recordInfoList| && ShouldDispatch(recordInfoList[i], now, hoursInFuture) &&
               r == recordInfoList[i].(processSpawnedFlag := true);
      assert recordInfoList[i] in recordInfoList;
    }
    recordings.SetProcessSpawned(dispatched);
  }

  /** A record the monitor has dispatched is never dispatched again: its
      flag survives every later rebuild of the schedule, and the next queue
      hands out the filed records themselves. */
  lemma SpawnedNotRedispatched(recordDict: Dict<string, RecordInfo>, shows: seq<Planner.ScheduleShow>,
                               findMatch: string -> Option<(Keywords.KeywordInfo, int)>, schedTimeOffset: Parsed,
                               platformInvalidChars: string, nowTicks: nat, now: int, hoursInFuture: int,
                               maxConcurrent: int, key: string)
    requires recordDict.Valid() && Planner.ChannelsValid(recordDict) && Planner.KeysMatch(recordDict)
    requires Planner.SpawnedAt(recordDict, key)
    ensures var filed := Planner.Scheduled(recordDict, shows, |shows|, findMatch, schedTimeOffset,
                                           platformInvalidChars, nowTicks);
            && filed.Valid()
            && forall r :: r in Dispatched(Planner.ShowsToQueue(filed, now, hoursInFuture, maxConcurrent), now, hoursInFuture)
                 ==> RecordKey(r) != key
  {
    var filed := Planner.Scheduled(recordDict, shows, |shows|, findMatch, schedTimeOffset, platformInvalidChars, nowTicks);
    Planner.ScheduledKeeps(recordDict, shows, |shows|, findMatch, schedTimeOffset, platformInvalidChars, nowTicks);
    Planner.ScheduledKeepsSpawned(recordDict, shows, |shows|, findMatch, schedTimeOffset, platformInvalidChars, nowTicks, key);
    var queue := Planner.ShowsToQueue(filed, now, hoursInFuture, maxConcurrent);
    Planner.QueuedAreFiled(filed, now, hoursInFuture, maxConcurrent);
    DispatchedSpec(queue, now, hoursInFuture);
    forall r | r in Dispatched(queue, now, hoursInFuture)
      ensures RecordKey(r) != key
    {
      var i :| 0 <= i < |queue| && ShouldDispatch(queue[i], now, hoursInFuture) &&
               r == queue[i].(processSpawnedFlag := true);
      assert queue[i] in queue;
      assert RecordKey(r) == RecordKey(queue[i]);
    }
  }

  // ---------------------------------------------------------------------
  // MonitorMode: when to check the schedule again

  /** The next check: `Now` is the initial value of `nextRecord`, which the
      computation always overwrites; `BadHour` is the exception `new
      DateTime` throws for an hour outside 0 to 23. */
  datatype Wake = Now | Today(hour: int) | Tomorrow(hour: int) | BadHour

  /** An hour `new DateTime` accepts. */
  predicate IsHour(h: int) { 0 <= h < 24 }

  /** The wake time built for the hour `h`, or the exception. */
  function WakeAt(h: int, today: bool): Wake {
    if !IsHour(h) then BadHour else if today then Today(h) else Tomorrow(h)
  }

  /** `times` are the comma-separated hours of the `scheduleCheck` setting
      (there is always at least one). Before the last listed hour, the next
      check is today at the first listed hour after the current one;
      otherwise tomorrow at the first listed hour. The chosen hour must be
      a clock hour, and the computation throws exactly when it is not. */
  method NextWake(times: seq<int>, hour: int) returns (wake: Wake)
    requires |times| >= 1
    ensures hour < times[|times| - 1] ==>
              exists k :: 0 <= k < |times| && wake == WakeAt(times[k], true) && hour < times[k] &&
                          forall j :: 0 <= j < k ==> times[j] <= hour
    ensures hour >= times[|times| - 1] ==> wake == WakeAt(times[0], false)
    ensures wake != Now
    ensures (wake.Today? || wake.Tomorrow?) ==> IsHour(wake.hour)
  {
    wake := Now;
    if hour < times[|times| - 1] {
      // the scan stops at the first later hour, which the last one guarantees
      var i := 0;
      while hour >= times[i]
        invariant 0 <= i < |times|
        invariant forall j :: 0 <= j < i ==> times[j] <= hour
        decreases |times| - i
      {
        i := i + 1;
      }
      var recHour := times[i];
      if 0 <= recHour < 24 {
        wake := Today(recHour);
      } else {
        wake := BadHour;
      }
    } else {
      var recHour := times[0];
      if 0 <= recHour < 24 {
        wake := Tomorrow(recHour);
      } else {
        wake := BadHour;
      }
    }
  }

  // ---------------------------------------------------------------------
  // GetNextChannel / GetNextServer

  /** The scan for the best entry: from `b` on, an entry whose average is at
      least the best so far takes over, so the last maximum wins. */
  function BestFrom(avgs: seq<int>, b: nat, best: int, idx: int, pinned: bool): (int, bool)
    requires b <= |avgs|
    decreases |avgs| - b
  {
    if b == |avgs| then (idx, pinned)
    else if avgs[b] >= best then BestFrom(avgs, b + 1, avgs[b], b, true)
    else BestFrom(avgs, b + 1, best, idx, pinned)
  }

  /** Given the averages and the current index: the next index while one is
      left, else the best entry, pinned. */
  function NextPick(avgs: seq<int>, idx: int): (int, bool) {
    if idx + 1 < |avgs| then (idx + 1, false) else BestFrom(avgs, 0, 0, idx + 1, false)
  }

  /** What the scan keeps: when pinned, `idx` holds the best average seen,
      which is at least 0, and every later entry seen is strictly smaller;
      when not pinned, every entry seen is negative. */
  ghost predicate ScanInv(avgs: seq<int>, b: nat, best: int, idx: int, pinned: bool)
    requires b <= |avgs|
  {
    (pinned ==> 0 <= idx < b && avgs[idx] == best && best >= 0 &&
                (forall j :: 0 <= j < b ==> avgs[j] <= best) &&
                (forall j :: idx < j < b ==> avgs[j] < best)) &&
    (!pinned ==> best == 0 && forall j :: 0 <= j < b ==> avgs[j] < 0)
  }

  lemma {:induction false} BestFromSpec(avgs: seq<int>, b: nat, best: int, idx: int, pinned: bool)
    requires b <= |avgs| && ScanInv(avgs, b, best, idx, pinned)
    ensures var (i, f) := BestFrom(avgs, b, best, idx, pinned);
            (f ==> 0 <= i < |avgs| && avgs[i] >= 0 &&
                   (forall j :: 0 <= j < |avgs| ==> avgs[j] <= avgs[i]) &&
                   (forall j :: i < j < |avgs| ==> avgs[j] < avgs[i])) &&
            (!f ==> i == idx && forall j :: 0 <= j < |avgs| ==> avgs[j] < 0)
    decreases |avgs| - b
  {
    if b < |avgs| {
      if avgs[b] >= best {
        BestFromSpec(avgs, b + 1, avgs[b], b, true);
      } else {
        BestFromSpec(avgs, b + 1, best, idx, pinned);
      }
    }
  }

  /** The selection rule: step to the next entry while there is one; past the
      end, pin the last entry holding the maximum average, provided some
      average is non-negative; when every average is negative, nothing is
      pinned and the index runs past the end. */
  lemma NextPickSpec(avgs: seq<int>, idx: int)
    ensures idx + 1 < |avgs| ==> NextPick(avgs, idx) == (idx + 1, false)
    ensures idx + 1 >= |avgs| ==>
              var (i, f) := NextPick(avgs, idx);
              (f <==> exists j :: 0 <= j < |avgs| && avgs[j] >= 0) &&
              (f ==> 0 <= i < |avgs| && avgs[i] >= 0 &&
                     (forall j :: 0 <= j < |avgs| ==> avgs[j] <= avgs[i]) &&
                     (forall j :: i < j < |avgs| ==> avgs[j] < avgs[i])) &&
              (!f ==> i == idx + 1)
  {
    if idx + 1 >= |avgs| {
      BestFromSpec(avgs, 0, 0, idx + 1, false);
    }
  }

  /** The shared body of `GetNextChannel` and `GetNextServer`. */
  method NextOrBest(avgs: seq<int>, idx: int) returns (newIdx: int, pinned: bool)
    ensures (newIdx, pinned) == NextPick(avgs, idx)
  {
    pinned := false;
    newIdx := idx + 1;
    if newIdx < |avgs| {
      return;
    }
    var best := 0;
    for b := 0 to |avgs|
      invariant BestFrom(avgs, 0, 0, idx + 1, false) == BestFrom(avgs, b, best, newIdx, pinned)
    {
      if avgs[b] >= best {
        best := avgs[b];
        newIdx := b;
        pinned := true;
      }
    }
  }

  function ChannelAvgs(channels: seq<ChannelInfo>): (avgs: seq<int>)
    ensures |avgs| == |channels|
    ensures forall i :: 0 <= i < |channels| ==> avgs[i] == channels[i].avgKBytesSec
  {
    seq(|channels|, i requires 0 <= i < |channels| => channels[i].avgKBytesSec)
  }

  function ServerAvgs(servers: seq<ServerInfo>): (avgs: seq<int>)
    ensures |avgs| == |servers|
    ensures forall i :: 0 <= i < |servers| ==> avgs[i] == servers[i].avgKBytesSec
  {
    seq(|servers|, i requires 0 <= i < |servers| => servers[i].avgKBytesSec)
  }

  method GetNextChannel(channelInfoArray: seq<ChannelInfo>, channelIdx: int) returns (idx: int, bestChannelSetFlag: bool)
    ensures (idx, bestChannelSetFlag) == NextPick(ChannelAvgs(channelInfoArray), channelIdx)
  {
    idx, bestChannelSetFlag := NextOrBest(ChannelAvgs(channelInfoArray), channelIdx);
  }

  method GetNextServer(servers: seq<ServerInfo>, serverIdx: int) returns (idx: int, bestSelect: bool)
    ensures (idx, bestSelect) == NextPick(ServerAvgs(servers), serverIdx)
  {
    idx, bestSelect := NextOrBest(ServerAvgs(servers), serverIdx);
  }

  // ---------------------------------------------------------------------
  // CaptureStream

  /** What one capture process leaves behind: the average rate its timer
      measured, and the clock when it exited (the moment the loop then reads
      `DateTime.Now`). */
  datatype Attempt = Attempt(avgKBytesSec: int, endedAt: int)

  /** The locals the retry loop carries. `history` is the in-memory channel
      history; `servers` and `channels` hold the rates the loop updates. */
  datatype RetryState = RetryState(
    currentFileNum: nat,
    serverIdx: int,
    bestServerSelected: bool,
    channelIdx: int,
    bestChannelSetFlag: bool,
    servers: seq<ServerInfo>,
    channels: seq<ChannelInfo>,
    history: map<string, ChannelHistoryInfo>,
    lastStartedTime: int)

  /** The current server and channel exist, and a channel is only pinned
      after a server is. */
  predicate Inv(st: RetryState) {
    0 <= st.serverIdx < |st.servers| && 0 <= st.channelIdx < |st.channels| &&
    (st.bestChannelSetFlag ==> st.bestServerSelected)
  }

  /** One more attempt counted against `channel` at `now` (two lookups of
      the history, creating the entry on the first). */
  function RecordAttempt(history: map<string, ChannelHistoryInfo>, channel: string, now: int): (h: map<string, ChannelHistoryInfo>)
    ensures h.Keys == history.Keys + {channel}
    ensures forall k :: k in history && k != channel ==> h[k] == history[k]
    ensures h[channel].recordingsAttempted == Lookup(history, channel, now).recordingsAttempted + 1
    ensures h[channel] == Lookup(history, channel, now).(recordingsAttempted := h[channel].recordingsAttempted, lastAttempt := now)
  {
    var info := Lookup(history, channel, now);
    AfterLookup(history, channel, now)[channel := info.(recordingsAttempted := info.recordingsAttempted + 1, lastAttempt := now)]
  }

  /** The capture ended normally: `channel` records a success at `now`. */
  function RecordSuccess(history: map<string, ChannelHistoryInfo>, channel: string, now: int): (h: map<string, ChannelHistoryInfo>)
    ensures h.Keys == history.Keys + {channel}
    ensures forall k :: k in history && k != channel ==> h[k] == history[k]
    ensures h[channel] == Lookup(history, channel, now).(lastSuccess := now)
  {
    AfterLookup(history, channel, now)[channel := Lookup(history, channel, now).(lastSuccess := now)]
  }

  /** One pass of the retry loop, entered at `now` after a capture that
      measured `observed` KB/s. A capture that failed within 15 minutes while
      no channel is pinned feeds its rate into the channel (`(avg + observed)
      / 2`) and the server (`setServerAvg`, the update of the server list),
      then moves to the next server, or once a server is pinned, to the next
      channel. `None`: the index picked is outside the list and reading it
      throws. */
  function RetryStep(st: RetryState, observed: int, now: int, setServerAvg: (int, int) -> int): (next: Option<RetryState>)
    requires Inv(st)
    ensures next.Some? ==> Inv(next.value)
    ensures next.Some? ==> |next.value.servers| == |st.servers| && |next.value.channels| == |st.channels|
    ensures next.Some? ==> next.value.currentFileNum == st.currentFileNum + 1 && next.value.lastStartedTime == now
  {
    match Switch(st, observed, now, setServerAvg)
    case None => None
    case Some(s) =>
      Some(s.(lastStartedTime := now, history := RecordAttempt(s.history, s.channels[s.channelIdx].number, now)))
  }

  /** The first half of a pass: the file number advances and, after a short
      capture while no channel is pinned, the rates are fed back and the
      server or channel moves on. */
  function Switch(st: RetryState, observed: int, now: int, setServerAvg: (int, int) -> int): (next: Option<RetryState>)
    requires Inv(st)
    ensures next.Some? ==> Inv(next.value)
    ensures next.Some? ==> |next.value.servers| == |st.servers| && |next.value.channels| == |st.channels|
    ensures next.Some? ==> next.value.history == st.history && next.value.lastStartedTime == st.lastStartedTime
    ensures next.Some? ==> next.value.currentFileNum == st.currentFileNum + 1
  {
    var counted := st.(currentFileNum := st.currentFileNum + 1);
    if now - st.lastStartedTime < 15 && !st.bestChannelSetFlag then
      var ch := st.channels[st.channelIdx];
      var sv := st.servers[st.serverIdx];
      var channels := st.channels[st.channelIdx := ch.(avgKBytesSec := Avg(ch.avgKBytesSec, observed))];
      var servers := st.servers[st.serverIdx := sv.(avgKBytesSec := setServerAvg(sv.avgKBytesSec, observed))];
      if !st.bestServerSelected then
        var (idx, pinned) := NextPick(ServerAvgs(servers), st.serverIdx);
        if 0 <= idx < |servers| then
          Some(counted.(servers := servers, channels := channels, serverIdx := idx, bestServerSelected := pinned))
        else None
      else
        var (idx, pinned) := NextPick(ChannelAvgs(channels), st.channelIdx);
        if 0 <= idx < |channels| then
          Some(counted.(servers := servers, channels := channels, channelIdx := idx, bestChannelSetFlag := pinned))
        else None
    else Some(counted)
  }

  /** How the loop ends: normally with its final locals, or with an
      exception, leaving the history as it was last saved (`None`: never). */
  datatype LoopEnd = Finished(state: RetryState) | Faulted(saved: Option<map<string, ChannelHistoryInfo>>)

  /** The retry loop from pass `retryNum` on: it goes on while the clock has
      not passed `captureTargetEnd` and fewer than `numRetries` passes ran;
      the history is saved at the end of every pass. */
  function Run(st: RetryState, retryNum: nat, saved: Option<map<string, ChannelHistoryInfo>>, numRetries: int,
               captureTargetEnd: int, outcome: nat -> Attempt, setServerAvg: (int, int) -> int): LoopEnd
    requires Inv(st)
    ensures Run(st, retryNum, saved, numRetries, captureTargetEnd, outcome, setServerAvg).Finished? ==>
              Inv(Run(st, retryNum, saved, numRetries, captureTargetEnd, outcome, setServerAvg).state)
    decreases numRetries - retryNum
  {
    var now := outcome(retryNum).endedAt;
    if now <= captureTargetEnd && retryNum < numRetries then
      match RetryStep(st, outcome(retryNum).avgKBytesSec, now, setServerAvg)
      case None => Faulted(saved)
      case Some(next) => Run(next, retryNum + 1, Some(next.history), numRetries, captureTargetEnd, outcome, setServerAvg)
    else Finished(st)
  }

  /** A pass never switches after a capture that lasted 15 minutes or more,
      nor once a channel is pinned: then only the file number, the start
      time and the history move on. */
  lemma SwitchOnlyWhenShort(st: RetryState, observed: int, now: int, setServerAvg: (int, int) -> int)
    requires Inv(st)
    requires now - st.lastStartedTime >= 15 || st.bestChannelSetFlag
    ensures RetryStep(st, observed, now, setServerAvg) ==
            Some(st.(currentFileNum := st.currentFileNum + 1, lastStartedTime := now,
                     history := RecordAttempt(st.history, st.channels[st.channelIdx].number, now)))
  {
  }

  /** After a short capture with nothing pinned, the capture's rate is fed
      into the current channel and server, and then the server moves on
      until one is pinned; only after that does the channel move. */
  lemma ShortFailureSwitches(st: RetryState, observed: int, now: int, setServerAvg: (int, int) -> int)
    requires Inv(st)
    requires now - st.lastStartedTime < 15 && !st.bestChannelSetFlag
    ensures var next := RetryStep(st, observed, now, setServerAvg);
            next.Some? ==>
              next.value.channels[st.channelIdx].avgKBytesSec == Avg(st.channels[st.channelIdx].avgKBytesSec, observed) &&
              next.value.servers[st.serverIdx].avgKBytesSec == setServerAvg(st.servers[st.serverIdx].avgKBytesSec, observed) &&
              (!st.bestServerSelected ==>
                 (next.value.serverIdx, next.value.bestServerSelected) == NextPick(ServerAvgs(next.value.servers), st.serverIdx) &&
                 next.value.channelIdx == st.channelIdx && !next.value.bestChannelSetFlag) &&
              (st.bestServerSelected ==>
                 (next.value.channelIdx, next.value.bestChannelSetFlag) == NextPick(ChannelAvgs(next.value.channels), st.channelIdx) &&
                 next.value.serverIdx == st.serverIdx && next.value.bestServerSelected)
  {
  }

  /** Rates that are never negative keep every pick inside its list, so no
      pass throws. */
  lemma NoFaultWithNonNegativeRates(st: RetryState, observed: int, now: int, setServerAvg: (int, int) -> int)
    requires Inv(st) && observed >= 0
    requires forall i :: 0 <= i < |st.servers| ==> st.servers[i].avgKBytesSec >= 0
    requires forall i :: 0 <= i < |st.channels| ==> st.channels[i].avgKBytesSec >= 0
    requires forall a, o :: a >= 0 && o >= 0 ==> setServerAvg(a, o) >= 0
    ensures var next := RetryStep(st, observed, now, setServerAvg);
            next.Some? &&
            (forall i :: 0 <= i < |next.value.servers| ==> next.value.servers[i].avgKBytesSec >= 0) &&
            (forall i :: 0 <= i < |next.value.channels| ==> next.value.channels[i].avgKBytesSec >= 0)
  {
    if now - st.lastStartedTime < 15 && !st.bestChannelSetFlag {
      var ch := st.channels[st.channelIdx];
      var sv := st.servers[st.serverIdx];
      var channels := st.channels[st.channelIdx := ch.(avgKBytesSec := Avg(ch.avgKBytesSec, observed))];
      var servers := st.servers[st.serverIdx := sv.(avgKBytesSec := setServerAvg(sv.avgKBytesSec, observed))];
      if !st.bestServerSelected {
        NextPickSpec(ServerAvgs(servers), st.serverIdx);
        assert ServerAvgs(servers)[0] >= 0;
      } else {
        NextPickSpec(ChannelAvgs(channels), st.channelIdx);
        assert ChannelAvgs(channels)[0] >= 0;
      }
    }
  }

  /** The loop runs at most `numRetries` passes, one file number each, and
      stops because the retries are used up or the clock has passed
      `captureTargetEnd`. */
  lemma {:induction false} RunBounds(st: RetryState, retryNum: nat, saved: Option<map<string, ChannelHistoryInfo>>,
                                     numRetries: int, captureTargetEnd: int, outcome: nat -> Attempt,
                                     setServerAvg: (int, int) -> int)
    requires Inv(st) && st.currentFileNum == retryNum
    ensures var end := Run(st, retryNum, saved, numRetries, captureTargetEnd, outcome, setServerAvg);
            end.Finished? ==>
              var n := end.state.currentFileNum;
              n >= retryNum && (n > retryNum ==> n <= numRetries) &&
              (n >= numRetries || outcome(n).endedAt > captureTargetEnd)
    decreases numRetries - retryNum
  {
    var now := outcome(retryNum).endedAt;
    if now <= captureTargetEnd && retryNum < numRetries {
      RunUnfold(st, retryNum, saved, numRetries, captureTargetEnd, outcome, setServerAvg);
      var step := RetryStep(st, outcome(retryNum).avgKBytesSec, now, setServerAvg);
      if step.Some? {
        var next := step.value;
        assert next.currentFileNum == retryNum + 1 && Inv(next);
        RunBounds(next, retryNum + 1, Some(next.history), numRetries, captureTargetEnd, outcome, setServerAvg);
      }
    } else {
      assert Run(st, retryNum, saved, numRetries, captureTargetEnd, outcome, setServerAvg) == Finished(st);
    }
  }

  /** Every pass the loop ran was entered before `captureTargetEnd`. */
  lemma {:induction false} RunInWindow(st: RetryState, retryNum: nat, saved: Option<map<string, ChannelHistoryInfo>>,
                                       numRetries: int, captureTargetEnd: int, outcome: nat -> Attempt,
                                       setServerAvg: (int, int) -> int)
    requires Inv(st) && st.currentFileNum == retryNum
    ensures var end := Run(st, retryNum, saved, numRetries, captureTargetEnd, outcome, setServerAvg);
            end.Finished? ==>
              forall k :: retryNum <= k < end.state.currentFileNum ==> outcome(k).endedAt <= captureTargetEnd
    decreases numRetries - retryNum
  {
    var now := outcome(retryNum).endedAt;
    if now <= captureTargetEnd && retryNum < numRetries {
      RunUnfold(st, retryNum, saved, numRetries, captureTargetEnd, outcome, setServerAvg);
      var step := RetryStep(st, outcome(retryNum).avgKBytesSec, now, setServerAvg);
      if step.Some? {
        var next := step.value;
        assert next.currentFileNum == retryNum + 1 && Inv(next);
        RunInWindow(next, retryNum + 1, Some(next.history), numRetries, captureTargetEnd, outcome, setServerAvg);
      }
    } else {
      assert Run(st, retryNum, saved, numRetries, captureTargetEnd, outcome, setServerAvg) == Finished(st);
    }
  }

  /** Once a channel is pinned the loop cannot throw, and the server, the
      channel and both flags stay as they are to the end. */
  lemma {:induction false} RunPinned(st: RetryState, retryNum: nat, saved: Option<map<string, ChannelHistoryInfo>>,
                                     numRetries: int, captureTargetEnd: int, outcome: nat -> Attempt,
                                     setServerAvg: (int, int) -> int)
    requires Inv(st) && st.bestChannelSetFlag
    ensures var end := Run(st, retryNum, saved, numRetries, captureTargetEnd, outcome, setServerAvg);
            end.Finished? && end.state.serverIdx == st.serverIdx && end.state.channelIdx == st.channelIdx &&
            end.state.bestServerSelected && end.state.bestChannelSetFlag &&
            end.state.servers == st.servers && end.state.channels == st.channels
    decreases numRetries - retryNum
  {
    var now := outcome(retryNum).endedAt;
    if now <= captureTargetEnd && retryNum < numRetries {
      SwitchOnlyWhenShort(st, outcome(retryNum).avgKBytesSec, now, setServerAvg);
      var next := RetryStep(st, outcome(retryNum).avgKBytesSec, now, setServerAvg).value;
      RunPinned(next, retryNum + 1, Some(next.history), numRetries, captureTargetEnd, outcome, setServerAvg);
    }
  }

  /** Once a server is pinned, the loop keeps it to the end. */
  lemma {:induction false} RunServerPinned(st: RetryState, retryNum: nat, saved: Option<map<string, ChannelHistoryInfo>>,
                                           numRetries: int, captureTargetEnd: int, outcome: nat -> Attempt,
                                           setServerAvg: (int, int) -> int)
    requires Inv(st) && st.bestServerSelected
    ensures var end := Run(st, retryNum, saved, numRetries, captureTargetEnd, outcome, setServerAvg);
            end.Finished? ==> end.state.serverIdx == st.serverIdx && end.state.bestServerSelected
    decreases numRetries - retryNum
  {
    var now := outcome(retryNum).endedAt;
    if now <= captureTargetEnd && retryNum < numRetries {
      var step := RetryStep(st, outcome(retryNum).avgKBytesSec, now, setServerAvg);
      if now - st.lastStartedTime < 15 && !st.bestChannelSetFlag {
        ShortFailureSwitches(st, outcome(retryNum).avgKBytesSec, now, setServerAvg);
      } else {
        SwitchOnlyWhenShort(st, outcome(retryNum).avgKBytesSec, now, setServerAvg);
      }
      RunUnfold(st, retryNum, saved, numRetries, captureTargetEnd, outcome, setServerAvg);
      if step.Some? {
        var next := step.value;
        assert next.serverIdx == st.serverIdx && next.bestServerSelected && Inv(next);
        RunServerPinned(next, retryNum + 1, Some(next.history), numRetries, captureTargetEnd, outcome, setServerAvg);
      }
    } else {
      assert Run(st, retryNum, saved, numRetries, captureTargetEnd, outcome, setServerAvg) == Finished(st);
    }
  }

  /** The servers `new Servers(strServers)` holds. */
  function InitialServers(strServers: string): (servers: seq<ServerInfo>)
    ensures |servers| == |Split(strServers, ',')| >= 1
  {
    seq(|Split(strServers, ',')|, i requires 0 <= i < |Split(strServers, ',')| => ServerInfo(Split(strServers, ',')[i], 0))
  }

  /** Lines that charge an attempt to `number` in the in-memory history. */
  method ChargeAttempt(channelHistory: ChannelHistory, number: string, now: int)
    modifies channelHistory
    ensures channelHistory.channelHistoryDict == RecordAttempt(old(channelHistory.channelHistoryDict), number, now)
  {
    ghost var created := AfterLookup(channelHistory.channelHistoryDict, number, now);
    var info := channelHistory.GetChannelHistoryInfo(number, now);
    var counted := info.(recordingsAttempted := info.recordingsAttempted + 1);
    channelHistory.SetChannelHistoryInfo(number, counted);
    assert channelHistory.channelHistoryDict == created[number := counted];
    info := channelHistory.GetChannelHistoryInfo(number, now);
    assert info == counted;
    channelHistory.SetChannelHistoryInfo(number, info.(lastAttempt := now));
    assert created[number := counted][number := counted.(lastAttempt := now)] == created[number := counted.(lastAttempt := now)];
  }

  /** Lines that record a success for `number` in the in-memory history. */
  method ChargeSuccess(channelHistory: ChannelHistory, number: string, now: int)
    modifies channelHistory
    ensures channelHistory.channelHistoryDict == RecordSuccess(old(channelHistory.channelHistoryDict), number, now)
  {
    var info := channelHistory.GetChannelHistoryInfo(number, now);
    channelHistory.SetChannelHistoryInfo(number, info.(lastSuccess := now));
  }

  /** One unrolling of the loop: a pass that succeeds continues from its result. */
  lemma RunUnfold(st: RetryState, retryNum: nat, saved: Option<map<string, ChannelHistoryInfo>>, numRetries: int,
                  captureTargetEnd: int, outcome: nat -> Attempt, setServerAvg: (int, int) -> int)
    requires Inv(st)
    requires outcome(retryNum).endedAt <= captureTargetEnd && retryNum < numRetries
    ensures var step := RetryStep(st, outcome(retryNum).avgKBytesSec, outcome(retryNum).endedAt, setServerAvg);
            Run(st, retryNum, saved, numRetries, captureTargetEnd, outcome, setServerAvg)
            == if step.None? then Faulted(saved)
               else Run(step.value, retryNum + 1, Some(step.value.history), numRetries, captureTargetEnd, outcome, setServerAvg)
  {
  }

  /** What `CaptureStream` returns (`None`: it throws) and the channel
      history it last saved (`None`: none). */
  datatype CaptureResult = CaptureResult(numFiles: Option<nat>, saved: Option<map<string, ChannelHistoryInfo>>)

  /** `CaptureStream`. `channelInfoArray` is the record's sorted channel
      list, `stored` the history file's content, `outcome(k)` what capture `k`
      (0 the first) leaves behind, `captureStarted` the clock at the start.
      The first channel is charged an attempt; a capture window that has
      already closed gives the first capture no process information, and
      reading its exit code throws. After the loop the final channel records
      a success and the number of retries is returned. */
  function Capture(recordInfo: RecordInfo, channelInfoArray: seq<ChannelInfo>, strServers: string, numRetries: int,
                   outcome: nat -> Attempt, setServerAvg: (int, int) -> int, captureStarted: int,
                   stored: Option<map<string, ChannelHistoryInfo>>): CaptureResult
  {
    var captureTargetEnd := GetStartDT(recordInfo, captureStarted) + GetDuration(recordInfo);
    if |channelInfoArray| == 0 then CaptureResult(None, None)
    else if captureTargetEnd - captureStarted <= 0 then CaptureResult(None, None)
    else CaptureOpen(channelInfoArray, strServers, numRetries, captureTargetEnd, outcome, setServerAvg, captureStarted, stored)
  }

  /** A capture with a channel and an open window: the retry loop from the
      start state, followed by its ending. */
  function CaptureOpen(channelInfoArray: seq<ChannelInfo>, strServers: string, numRetries: int, captureTargetEnd: int,
                       outcome: nat -> Attempt, setServerAvg: (int, int) -> int, captureStarted: int,
                       stored: Option<map<string, ChannelHistoryInfo>>): CaptureResult
    requires |channelInfoArray| > 0
  {
    var st := StartState(channelInfoArray, strServers, captureStarted, stored);
    AfterLoop(Run(st, 0, None, numRetries, captureTargetEnd, outcome, setServerAvg), outcome)
  }

  /** What a capture returns: no channel, or a window that closed before the
      start, throws; a finished capture returns at most `numRetries` (and
      never a negative count), fewer only when the clock passed the end,
      and a history is saved (the last channel's success, as `AfterLoop`
      and `FinishCapture` state). */
  lemma CaptureSpec(recordInfo: RecordInfo, channelInfoArray: seq<ChannelInfo>, strServers: string, numRetries: int,
                    outcome: nat -> Attempt, setServerAvg: (int, int) -> int, captureStarted: int,
                    stored: Option<map<string, ChannelHistoryInfo>>)
    ensures var result := Capture(recordInfo, channelInfoArray, strServers, numRetries, outcome, setServerAvg, captureStarted, stored);
            var captureTargetEnd := GetStartDT(recordInfo, captureStarted) + GetDuration(recordInfo);
            (|channelInfoArray| == 0 || captureTargetEnd <= captureStarted ==> result == CaptureResult(None, None)) &&
            (result.numFiles.Some? ==>
               var n := result.numFiles.value;
               (n > 0 ==> n <= numRetries) &&
               (n < numRetries ==> outcome(n).endedAt > captureTargetEnd) &&
               (forall k :: 0 <= k < n ==> outcome(k).endedAt <= captureTargetEnd) &&
               result.saved.Some?)
  {
    var captureTargetEnd := GetStartDT(recordInfo, captureStarted) + GetDuration(recordInfo);
    if |channelInfoArray| > 0 && captureTargetEnd > captureStarted {
      var st := StartState(channelInfoArray, strServers, captureStarted, stored);
      assert Capture(recordInfo, channelInfoArray, strServers, numRetries, outcome, setServerAvg, captureStarted, stored)
             == AfterLoop(Run(st, 0, None, numRetries, captureTargetEnd, outcome, setServerAvg), outcome);
      RunBounds(st, 0, None, numRetries, captureTargetEnd, outcome, setServerAvg);
      RunInWindow(st, 0, None, numRetries, captureTargetEnd, outcome, setServerAvg);
    }
  }

  /** The locals when the retry loop is entered: first server and channel,
      nothing pinned, the first channel charged an attempt. */
  function StartState(channelInfoArray: seq<ChannelInfo>, strServers: string, captureStarted: int,
                      stored: Option<map<string, ChannelHistoryInfo>>): (st: RetryState)
    requires |channelInfoArray| > 0
    ensures Inv(st)
  {
    var loaded := if stored.Some? then stored.value else map[];
    RetryState(0, 0, false, 0, false, InitialServers(strServers), channelInfoArray,
               RecordAttempt(loaded, channelInfoArray[0].number, captureStarted), captureStarted)
  }

  /** After the loop: an exception ends the capture; otherwise the final
      channel records a success when the last capture exited. */
  function AfterLoop(end: LoopEnd, outcome: nat -> Attempt): CaptureResult {
    match end
    case Faulted(saved) => CaptureResult(None, saved)
    case Finished(fin) =>
      if 0 <= fin.channelIdx < |fin.channels| then
        var now := outcome(fin.currentFileNum).endedAt;
        CaptureResult(Some(fin.currentFileNum), Some(RecordSuccess(fin.history, fin.channels[fin.channelIdx].number, now)))
      else CaptureResult(None, None)
  }

  /** The failure handling of one pass (the file number and the switching
      block), on the loop's locals. */
  method SwitchOnFailure(st: RetryState, observed: int, now: int, setServerAvg: (int, int) -> int) returns (next: Option<RetryState>)
    requires Inv(st)
    ensures next == Switch(st, observed, now, setServerAvg)
  {
    var serverIdx, bestServerSelected := st.serverIdx, st.bestServerSelected;
    var channelIdx, bestChannelSetFlag := st.channelIdx, st.bestChannelSetFlag;
    var serverList, channels := st.servers, st.channels;
    var currentFileNum := st.currentFileNum + 1;
    if now - st.lastStartedTime < 15 && !bestChannelSetFlag {
      var currentChannel := channels[channelIdx];
      channels := channels[channelIdx := currentChannel.(avgKBytesSec := Avg(currentChannel.avgKBytesSec, observed))];
      var server := serverList[serverIdx];
      serverList := serverList[serverIdx := server.(avgKBytesSec := setServerAvg(server.avgKBytesSec, observed))];
      if !bestServerSelected {
        serverIdx, bestServerSelected := GetNextServer(serverList, serverIdx);
        if !(0 <= serverIdx < |serverList|) {
          return None;  // GetServerName(serverIdx) throws
        }
      } else {
        channelIdx, bestChannelSetFlag := GetNextChannel(channels, channelIdx);
        if !(0 <= channelIdx < |channels|) {
          return None;  // channelInfoArray[channelIdx] throws
        }
      }
    }
    next := Some(RetryState(currentFileNum, serverIdx, bestServerSelected, channelIdx, bestChannelSetFlag,
                            serverList, channels, st.history, st.lastStartedTime));
  }

  /** The retry loop of `CaptureStream`: while the clock has not passed
      `captureTargetEnd` and retries remain, handle the failed capture,
      charge an attempt to the channel now in use and save the history. */
  method RetryLoop(start: RetryState, channelHistory: ChannelHistory, numRetries: int, captureTargetEnd: int,
                   outcome: nat -> Attempt, setServerAvg: (int, int) -> int) returns (end: LoopEnd)
    requires Inv(start) && start.currentFileNum == 0 && channelHistory.channelHistoryDict == start.history
    modifies channelHistory
    ensures end == Run(start, 0, None, numRetries, captureTargetEnd, outcome, setServerAvg)
    ensures end.Finished? ==> channelHistory.channelHistoryDict == end.state.history
  {
    var st := start;
    var saved: Option<map<string, ChannelHistoryInfo>> := None;
    var retryNum: nat := 0;
    while outcome(retryNum).endedAt <= captureTargetEnd && retryNum < numRetries
      invariant Inv(st) && st.currentFileNum == retryNum && channelHistory.channelHistoryDict == st.history
      invariant Run(start, 0, None, numRetries, captureTargetEnd, outcome, setServerAvg)
             == Run(st, retryNum, saved, numRetries, captureTargetEnd, outcome, setServerAvg)
      decreases numRetries - retryNum
    {
      var now := outcome(retryNum).endedAt;
      var observed := outcome(retryNum).avgKBytesSec;
      RunUnfold(st, retryNum, saved, numRetries, captureTargetEnd, outcome, setServerAvg);
      var switched := SwitchOnFailure(st, observed, now, setServerAvg);
      if switched.None? {
        return Faulted(saved);
      }
      st := switched.value.(lastStartedTime := now);
      ChargeAttempt(channelHistory, st.channels[st.channelIdx].number, now);
      st := st.(history := channelHistory.channelHistoryDict);
      saved := Some(channelHistory.channelHistoryDict);  // channelHistory.Save()
      retryNum := retryNum + 1;
    }
    end := Finished(st);
  }

  method CaptureStream(recordInfo: RecordInfo, channelInfoArray: seq<ChannelInfo>, strServers: string, numRetries: int,
                       outcome: nat -> Attempt, setServerAvg: (int, int) -> int, captureStarted: int,
                       stored: Option<map<string, ChannelHistoryInfo>>)
    returns (numFiles: Option<nat>, saved: Option<map<string, ChannelHistoryInfo>>)
    ensures CaptureResult(numFiles, saved) == Capture(recordInfo, channelInfoArray, strServers, numRetries,
                                                      outcome, setServerAvg, captureStarted, stored)
  {
    var channelHistory := new ChannelHistory(stored);
    var captureTargetEnd := GetStartDT(recordInfo, captureStarted) + GetDuration(recordInfo);
    var duration := captureTargetEnd - captureStarted;
    var serverList := LoadServerList(strServers);
    if |channelInfoArray| == 0 {
      return None, None;  // channelInfoArray[0] throws
    }
    ChargeAttempt(channelHistory, channelInfoArray[0].number, captureStarted);
    if duration <= 0 {
      return None, None;  // no timer, no process information: reading its exit code throws
    }
    assert Capture(recordInfo, channelInfoArray, strServers, numRetries, outcome, setServerAvg, captureStarted, stored)
           == CaptureOpen(channelInfoArray, strServers, numRetries, captureTargetEnd, outcome, setServerAvg, captureStarted, stored);
    numFiles, saved := CaptureFromStart(channelInfoArray, strServers, serverList, channelHistory, numRetries,
                                        captureTargetEnd, outcome, setServerAvg, captureStarted, stored);
  }

  /** `new Servers(strServers).GetServerList()`. */
  method LoadServerList(strServers: string) returns (serverList: seq<ServerInfo>)
    ensures serverList == InitialServers(strServers)
  {
    var servers := new Servers(strServers);
    serverList := servers.GetServerList();
  }

  /** `CaptureStream` once the first channel is charged and the window is
      open: the retry loop from the first server and channel, then its end. */
  method CaptureFromStart(channelInfoArray: seq<ChannelInfo>, strServers: string, serverList: seq<ServerInfo>,
                          channelHistory: ChannelHistory, numRetries: int, captureTargetEnd: int,
                          outcome: nat -> Attempt, setServerAvg: (int, int) -> int, captureStarted: int,
                          stored: Option<map<string, ChannelHistoryInfo>>)
    returns (numFiles: Option<nat>, saved: Option<map<string, ChannelHistoryInfo>>)
    requires |channelInfoArray| > 0 && serverList == InitialServers(strServers)
    requires channelHistory.channelHistoryDict == StartState(channelInfoArray, strServers, captureStarted, stored).history
    modifies channelHistory
    ensures CaptureResult(numFiles, saved)
            == CaptureOpen(channelInfoArray, strServers, numRetries, captureTargetEnd, outcome, setServerAvg, captureStarted, stored)
  {
    var start := RetryState(0, 0, false, 0, false, serverList, channelInfoArray,
                            channelHistory.channelHistoryDict, captureStarted);
    assert start == StartState(channelInfoArray, strServers, captureStarted, stored);
    var end := RetryLoop(start, channelHistory, numRetries, captureTargetEnd, outcome, setServerAvg);
    numFiles, saved := FinishCapture(end, channelHistory, outcome);
  }

  /** The end of `CaptureStream`: an exception leaves the history last
      saved; otherwise the final channel is charged a success and the number
      of retries is returned. */
  method FinishCapture(end: LoopEnd, channelHistory: ChannelHistory, outcome: nat -> Attempt)
    returns (numFiles: Option<nat>, saved: Option<map<string, ChannelHistoryInfo>>)
    requires end.Finished? ==> Inv(end.state) && channelHistory.channelHistoryDict == end.state.history
    modifies channelHistory
    ensures CaptureResult(numFiles, saved) == AfterLoop(end, outcome)
  {
    match end
    case Faulted(lastSaved) =>
      numFiles, saved := None, lastSaved;
    case Finished(fin) =>
      ChargeSuccess(channelHistory, fin.channels[fin.channelIdx].number, outcome(fin.currentFileNum).endedAt);
      numFiles, saved := Some(fin.currentFileNum), Some(channelHistory.channelHistoryDict);
  }

  // ---------------------------------------------------------------------
  // BuildCaptureCmdLineArgs

  const OutputSlot := "[FULLOUTPUTPATH]"
  const ServerSlot := "[SERVER]"
  const ChannelSlot := "[CHANNEL]"
  const TokenSlot := "[AUTHTOKEN]"

  /** The capture command line: the `captureCmdLine` setting with the output
      path, server, channel and token substituted, in that order. */
  function BuildCaptureCmdLineArgs(captureCmdLine: string, server: string, channel: string,
                                   hashValue: string, outputPath: string): string
  {
    var withPath := ReplaceAll(captureCmdLine, OutputSlot, outputPath);
    var withServer := ReplaceAll(withPath, ServerSlot, server);
    var withChannel := ReplaceAll(withServer, ChannelSlot, channel);
    ReplaceAll(withChannel, TokenSlot, hashValue)
  }

  /** The value each piece of a template stands for. */
  function Fill(pieces: seq<string>, server: string, channel: string, hashValue: string, outputPath: string): (out: seq<string>)
    ensures |out| == |pieces|
    ensures forall i :: 0 <= i < |pieces| ==>
              out[i] == (if pieces[i] == OutputSlot then outputPath
                         else if pieces[i] == ServerSlot then server
                         else if pieces[i] == ChannelSlot then channel
                         else if pieces[i] == TokenSlot then hashValue
                         else pieces[i])
  {
    seq(|pieces|, i requires 0 <= i < |pieces| =>
      if pieces[i] == OutputSlot then outputPath
      else if pieces[i] == ServerSlot then server
      else if pieces[i] == ChannelSlot then channel
      else if pieces[i] == TokenSlot then hashValue
      else pieces[i])
  }

  /** Pieces of a template: text without `[`, or one of `slots`. */
  predicate FromTemplate(pieces: seq<string>, slots: set<string>) {
    forall x :: x in pieces ==> '[' !in x || x in slots
  }

  /** One substitution of a template whose other placeholders start with a
      different letter: it acts piece by piece, and the placeholder is gone
      from the pieces afterwards. */
  lemma SubstStage(pieces: seq<string>, slots: set<string>, p: string, r: string)
    requires Slot(p) && '[' !in r && FromTemplate(pieces, slots)
    requires forall q :: q in slots && q != p ==> Slot(q) && q[1] != p[1]
    ensures ReplaceAll(Concat(pieces), p, r) == Concat(Subst(pieces, p, r))
    ensures FromTemplate(Subst(pieces, p, r), slots - {p})
  {
    ReplacePieces(pieces, p, r);
    var out := Subst(pieces, p, r);
    forall x | x in out
      ensures '[' !in x || x in slots - {p}
    {
      var i :| 0 <= i < |out| && out[i] == x;
      assert pieces[i] in pieces;
    }
  }

  /** The four placeholders are well formed and differ in their first letter. */
  lemma SlotFacts()
    ensures Slot(OutputSlot) && Slot(ServerSlot) && Slot(ChannelSlot) && Slot(TokenSlot)
    ensures OutputSlot[1] == 'F' && ServerSlot[1] == 'S' && ChannelSlot[1] == 'C' && TokenSlot[1] == 'A'
  {
    assert OutputSlot[1..] == "FULLOUTPUTPATH]";
    assert ServerSlot[1..] == "SERVER]";
    assert ChannelSlot[1..] == "CHANNEL]";
    assert TokenSlot[1..] == "AUTHTOKEN]";
  }

  /** A template made of text without `[` and the four placeholders, filled
      with values without `[`, comes out with every placeholder replaced by
      its own value and all the text in between kept. */
  lemma CmdLineFilled(pieces: seq<string>, server: string, channel: string, hashValue: string, outputPath: string)
    requires FromTemplate(pieces, {OutputSlot, ServerSlot, ChannelSlot, TokenSlot})
    requires '[' !in server && '[' !in channel && '[' !in hashValue && '[' !in outputPath
    ensures BuildCaptureCmdLineArgs(Concat(pieces), server, channel, hashValue, outputPath)
            == Concat(Fill(pieces, server, channel, hashValue, outputPath))
  {
    var p1 := Subst(pieces, OutputSlot, outputPath);
    var p2 := Subst(p1, ServerSlot, server);
    var p3 := Subst(p2, ChannelSlot, channel);
    var p4 := Subst(p3, TokenSlot, hashValue);
    SlotFacts();
    var slots := {OutputSlot, ServerSlot, ChannelSlot, TokenSlot};
    SubstStage(pieces, slots, OutputSlot, outputPath);
    assert slots - {OutputSlot} == {ServerSlot, ChannelSlot, TokenSlot};
    SubstStage(p1, {ServerSlot, ChannelSlot, TokenSlot}, ServerSlot, server);
    assert {ServerSlot, ChannelSlot, TokenSlot} - {ServerSlot} == {ChannelSlot, TokenSlot};
    SubstStage(p2, {ChannelSlot, TokenSlot}, ChannelSlot, channel);
    assert {ChannelSlot, TokenSlot} - {ChannelSlot} == {TokenSlot};
    SubstStage(p3, {TokenSlot}, TokenSlot, hashValue);
    FillIsSubst(pieces, server, channel, hashValue, outputPath);
  }

  lemma FillIsSubst(pieces: seq<string>, server: string, channel: string, hashValue: string, outputPath: string)
    requires '[' !in server && '[' !in channel && '[' !in hashValue && '[' !in outputPath
    ensures Subst(Subst(Subst(Subst(pieces, OutputSlot, outputPath), ServerSlot, server), ChannelSlot, channel), TokenSlot, hashValue)
            == Fill(pieces, server, channel, hashValue, outputPath)
  {
    var p1 := Subst(pieces, OutputSlot, outputPath);
    var p2 := Subst(p1, ServerSlot, server);
    var p3 := Subst(p2, ChannelSlot, channel);
    var p4 := Subst(p3, TokenSlot, hashValue);
    forall i | 0 <= i < |pieces|
      ensures p4[i] == Fill(pieces, server, channel, hashValue, outputPath)[i]
    {
      assert OutputSlot[0] == '[' && ServerSlot[0] == '[' && ChannelSlot[0] == '[' && TokenSlot[0] == '[';
    }
  }

  /** The substitutions are applied in order, so a server value that itself
      reads `[CHANNEL]` has the channel substituted into it. */
  lemma CmdLineOrder()
    ensures BuildCaptureCmdLineArgs("[SERVER]", "[CHANNEL]", "07", "h", "o") == "07"
  {
    assert ReplaceAll("[SERVER]", OutputSlot, "o") == "[SERVER]";
    assert ReplaceAll("[SERVER]", ServerSlot, "[CHANNEL]") == "[CHANNEL]" by {
      assert "[SERVER]"[..|ServerSlot|] == ServerSlot;
      assert ReplaceAll("[SERVER]"[|ServerSlot|..], ServerSlot, "[CHANNEL]") == "";
    }
    assert ReplaceAll("[CHANNEL]", ChannelSlot, "07") == "07" by {
      assert "[CHANNEL]"[..|ChannelSlot|] == ChannelSlot;
      assert ReplaceAll("[CHANNEL]"[|ChannelSlot|..], ChannelSlot, "07") == "";
    }
  }

  /** A token of letters, digits and `=` (as an authentication hash is) can
      never leave `[AUTHTOKEN]` behind once it holds no character of it. */
  lemma CmdLineNoToken(captureCmdLine: string, server: string, channel: string, hashValue: string, outputPath: string)
    requires |hashValue| > 0 && forall c :: c in hashValue ==> c !in TokenSlot
    ensures !Contains(BuildCaptureCmdLineArgs(captureCmdLine, server, channel, hashValue, outputPath), TokenSlot)
  {
    var withPath := ReplaceAll(captureCmdLine, OutputSlot, outputPath);
    var withServer := ReplaceAll(withPath, ServerSlot, server);
    ReplaceRemoves(ReplaceAll(withServer, ChannelSlot, channel), TokenSlot, hashValue);
  }

  // ---------------------------------------------------------------------
  // FixUp: the concat list

  /** The path of capture segment `i`. */
  function SegmentPath(outputPath: string, fileName: string, i: nat): string {
    Combine(outputPath, fileName + NatToString(i) + ".ts")
  }

  /** Segments 0 to `numFiles`, in ascending order. */
  function Segments(outputPath: string, fileName: string, numFiles: nat): (segs: seq<string>)
    ensures |segs| == numFiles + 1
    ensures forall i :: 0 <= i <= numFiles ==> segs[i] == SegmentPath(outputPath, fileName, i)
  {
    seq(numFiles + 1, i requires 0 <= i <= numFiles => SegmentPath(outputPath, fileName, i))
  }

  /** The `[FILELIST]` value `FixUp` builds when there is more than one
      segment (`numFiles` retries give `numFiles + 1` files); `None` when
      there was no retry and nothing is concatenated. */
  method FixUpFileList(outputPath: string, fileName: string, numFiles: int) returns (fileList: Option<string>)
    ensures numFiles <= 0 ==> fileList == None
    ensures numFiles > 0 ==> fileList == Some(Join(Segments(outputPath, fileName, numFiles), '|'))
  {
    if numFiles <= 0 {
      return None;
    }
    var list := Combine(outputPath, fileName + "0.ts");
    assert NatToString(0) == "0";
    assert list == Join(Segments(outputPath, fileName, 0), '|');
    for i := 1 to numFiles + 1
      invariant list == Join(Segments(outputPath, fileName, i - 1), '|')
    {
      assert Segments(outputPath, fileName, i) == Segments(outputPath, fileName, i - 1) + [SegmentPath(outputPath, fileName, i)];
      JoinSnoc(Segments(outputPath, fileName, i - 1), SegmentPath(outputPath, fileName, i), '|');
      list := list + "|" + Combine(outputPath, fileName + NatToString(i) + ".ts");
    }
    fileList := Some(list);
  }

  /** With no `|` in the output directory or the file name, the concat list
      splits back into exactly the segments, in order. */
  lemma FileListSplits(outputPath: string, fileName: string, numFiles: nat)
    requires '|' !in outputPath && '|' !in fileName
    ensures Split(Join(Segments(outputPath, fileName, numFiles), '|'), '|') == Segments(outputPath, fileName, numFiles)
  {
    var segs := Segments(outputPath, fileName, numFiles);
    forall s | s in segs
      ensures '|' !in s
    {
      var i :| 0 <= i < |segs| && segs[i] == s;
      var name := fileName + NatToString(i) + ".ts";
      assert '|' !in name;
    }
    SplitJoin(segs, '|');
  }
}
