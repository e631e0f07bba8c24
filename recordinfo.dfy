/** RecordInfo.cs: one show to be recorded, and the time arithmetic on it.
    Times are whole minutes; `DateTime.Parse` and `Convert.ToInt32` are taken
    as already done, so a textual field carries both its text and its value. */
module Records {
  import opened Common
  import opened Text
  import opened ChannelStore

  /** A string field together with the number it parses to. */
  datatype Parsed = Parsed(text: string, value: int)

  datatype RecordInfo = RecordInfo(
    strDuration: Option<Parsed>,    // runtime in minutes; null until filled
    strStartDT: Option<Parsed>,     // start in minutes; null until filled
    strEndDT: Option<Parsed>,       // end in minutes; null until filled
    strDTOffset: Parsed,            // offset in hours
    id: string,
    fileName: string,
    description: string,
    preMinutes: int,
    postMinutes: int,
    starredFlag: bool,
    emailFlag: bool,
    qualityPref: string,
    langPref: string,
    channelPref: string,
    category: string,
    keywordPos: int,
    processSpawnedFlag: bool,
    partialFlag: bool,
    completedFlag: bool,
    channels: Dict<string, ChannelInfo>)  // the state of the record's `Channels` object

  /** `new RecordInfo()`: the id is the clock's tick count, every flag is
      false, the offset is "0" and the preferences and category are empty. */
  function NewRecordInfo(nowTicks: nat): (r: RecordInfo)
    ensures !r.processSpawnedFlag && !r.partialFlag && !r.completedFlag
    ensures r.strDTOffset == Parsed("0", 0)
    ensures r.qualityPref == "" && r.langPref == "" && r.category == ""
    ensures r.id == NatToString(nowTicks)
    ensures r.channels.Valid() && r.channels.Count() == 0
    ensures r.strStartDT.None? && r.strEndDT.None? && r.strDuration.None?
  {
    RecordInfo(None, None, None, Parsed("0", 0), NatToString(nowTicks), "", "", 0, 0, false, false,
               "", "", "", "", 0, false, false, false, EmptyDict())
  }

  /** `GetStartDT`: the listed start, moved earlier by the pre-roll and shifted
      by the offset hours; `now` when no start is set. */
  function GetStartDT(r: RecordInfo, now: int): (start: int)
    ensures r.strStartDT.None? ==> start == now
    ensures r.strStartDT.Some? ==> start + r.preMinutes == r.strStartDT.value.value + 60 * r.strDTOffset.value
  {
    match r.strStartDT
    case None => now
    case Some(s) => s.value - r.preMinutes + 60 * r.strDTOffset.value
  }

  /** `GetEndDT`: the listed end shifted by the offset hours (the post-roll is
      not added); `now` when no end is set. */
  function GetEndDT(r: RecordInfo, now: int): (end: int)
    ensures r.strEndDT.None? ==> end == now
    ensures r.strEndDT.Some? ==> end == r.strEndDT.value.value + 60 * r.strDTOffset.value
  {
    match r.strEndDT
    case None => now
    case Some(s) => s.value + 60 * r.strDTOffset.value
  }

  /** `GetDuration`: runtime plus pre- and post-roll; `Convert.ToInt32(null)`
      is 0, so a record without a runtime lasts just its rolls. */
  function GetDuration(r: RecordInfo): (d: int)
    ensures r.strDuration.None? ==> d == r.preMinutes + r.postMinutes
    ensures r.strDuration.Some? ==> d - r.preMinutes - r.postMinutes == r.strDuration.value.value
  {
    (if r.strDuration.None? then 0 else r.strDuration.value.value) + r.preMinutes + r.postMinutes
  }

  /** The key a record is filed under: `description + strStartDT` (a null
      start concatenates as empty). */
  function RecordKey(r: RecordInfo): string {
    r.description + (if r.strStartDT.None? then "" else r.strStartDT.value.text)
  }

  /** The pre-roll moves the start and nothing else: a longer pre-roll starts
      the capture earlier by exactly that much and leaves the end alone. */
  lemma PreRollShiftsStartOnly(r: RecordInfo, now: int, extra: int)
    requires r.strStartDT.Some?
    ensures GetStartDT(r.(preMinutes := r.preMinutes + extra), now) == GetStartDT(r, now) - extra
    ensures GetEndDT(r.(preMinutes := r.preMinutes + extra), now) == GetEndDT(r, now)
  {
  }

  /** The post-roll never reaches the end time: only the duration grows with it. */
  lemma PostRollNotInEnd(r: RecordInfo, now: int, post: int)
    ensures GetEndDT(r.(postMinutes := post), now) == GetEndDT(r, now)
    ensures GetDuration(r.(postMinutes := post)) == GetDuration(r) - r.postMinutes + post
  {
  }

  /** `GetChannelString`: each description followed by a space, in the order
      the record's channel list is given. */
  method GetChannelString(channelList: seq<ChannelInfo>) returns (channelStr: string)
    ensures channelStr == ChannelText(channelList)
    ensures |channelStr| >= |channelList|
  {
    channelStr := "";
    for n := 0 to |channelList|
      invariant channelStr == ChannelText(channelList[..n])
      invariant |channelStr| >= n
    {
      assert channelList[..n + 1][..n] == channelList[..n];
      channelStr := channelStr + channelList[n].description + " ";
    }
    assert channelList[..|channelList|] == channelList;
  }
}
