/** ChannelHistory.cs: per-channel capture statistics, created on first use. */
module History {
  import opened Common

  /** ChannelHistoryInfo.cs, without the floating-point `hoursRecorded`. */
  datatype ChannelHistoryInfo = ChannelHistoryInfo(
    channel: string,
    recordingsAttempted: int,
    errors: int,
    lastAttempt: int,
    lastSuccess: int,
    activeFlag: bool)

  /** The record created for a channel seen for the first time. */
  function FreshInfo(channel: string, now: int): (info: ChannelHistoryInfo)
    ensures info.channel == channel && info.activeFlag
    ensures info.recordingsAttempted == 0 && info.errors == 0
    ensures info.lastAttempt == now && info.lastSuccess == now
  {
    ChannelHistoryInfo(channel, 0, 0, now, now, true)
  }

  /** What `GetChannelHistoryInfo(channel)` returns for the store `dict`. */
  function Lookup(dict: map<string, ChannelHistoryInfo>, channel: string, now: int): ChannelHistoryInfo {
    if channel in dict then dict[channel] else FreshInfo(channel, now)
  }

  /** The store after `GetChannelHistoryInfo(channel)`. */
  function AfterLookup(dict: map<string, ChannelHistoryInfo>, channel: string, now: int): map<string, ChannelHistoryInfo> {
    if channel in dict then dict else dict[channel := FreshInfo(channel, now)]
  }

  /** Only the queried channel can be added, it is always present afterwards,
      and the returned record is the one stored under it. */
  lemma LookupSpec(dict: map<string, ChannelHistoryInfo>, channel: string, now: int)
    ensures AfterLookup(dict, channel, now).Keys == dict.Keys + {channel}
    ensures AfterLookup(dict, channel, now)[channel] == Lookup(dict, channel, now)
    ensures forall k :: k in dict ==> AfterLookup(dict, channel, now)[k] == dict[k]
    ensures channel !in dict ==> Lookup(dict, channel, now) == FreshInfo(channel, now)
  {
  }

  /** Creation is idempotent: a second lookup of the same channel, at any
      time, returns the record created by the first and adds nothing. */
  lemma LookupIdempotent(dict: map<string, ChannelHistoryInfo>, channel: string, now: int, later: int)
    ensures AfterLookup(AfterLookup(dict, channel, now), channel, later) == AfterLookup(dict, channel, now)
    ensures Lookup(AfterLookup(dict, channel, now), channel, later) == Lookup(dict, channel, now)
  {
  }

  class ChannelHistory {
    var channelHistoryDict: map<string, ChannelHistoryInfo>

    /** The constructor: the deserialised file, or an empty store when reading
        or parsing it fails (`None`). */
    constructor (loaded: Option<map<string, ChannelHistoryInfo>>)
      ensures loaded.None? ==> channelHistoryDict == map[]
      ensures loaded.Some? ==> channelHistoryDict == loaded.value
    {
      if loaded.Some? {
        channelHistoryDict := loaded.value;
      } else {
        channelHistoryDict := map[];
      }
    }

    /** `GetChannelHistoryInfo`: get-or-create. */
    method GetChannelHistoryInfo(channel: string, now: int) returns (info: ChannelHistoryInfo)
      modifies this
      ensures info == Lookup(old(channelHistoryDict), channel, now)
      ensures channelHistoryDict == AfterLookup(old(channelHistoryDict), channel, now)
      ensures channel in old(channelHistoryDict) ==> channelHistoryDict == old(channelHistoryDict)
    {
      if channel in channelHistoryDict {
        info := channelHistoryDict[channel];
      } else {
        info := ChannelHistoryInfo(channel, 0, 0, now, now, true);
        channelHistoryDict := channelHistoryDict[channel := info];
      }
    }

    /** A caller's assignment to a field of the object that
        `GetChannelHistoryInfo(channel)` handed out: the record stored under
        `channel` becomes `info`. */
    method SetChannelHistoryInfo(channel: string, info: ChannelHistoryInfo)
      modifies this
      ensures channelHistoryDict == old(channelHistoryDict)[channel := info]
    {
      channelHistoryDict := channelHistoryDict[channel := info];
    }
  }
}
