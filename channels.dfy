/** Channels.cs: the channels a recording may be captured from, keyed by a
    two-character channel number, and the order in which they are preferred. */
module ChannelStore {
  import opened Common
  import opened Text

  /** ChannelInfo.cs. `avgKBytesSec` is not declared there but is read and
      written by the selector and the recorder; it is kept as a plain field. */
  datatype ChannelInfo = ChannelInfo(
    number: string,
    description: string,
    qualityTag: string,
    ratio: int,
    lang: string,
    avgKBytesSec: int)

  /** "Must be 2 digits": a one-character channel gets a leading "0". */
  function PadChannel(channel: string): (padded: string)
    ensures |padded| != 1
    ensures |channel| != 1 ==> padded == channel
    ensures |channel| == 1 ==> padded == "0" + channel
  {
    if |channel| == 1 then "0" + channel else channel
  }

  /** `BuildChannelInfo`: number is the padded channel, the description reads
      "<number> (<quality>/<lang>) ", ratio and average start at 0. */
  function BuildChannelInfo(channel: string, quality: string, lang: string): (info: ChannelInfo)
    ensures info.number == PadChannel(channel) && |info.number| != 1
    ensures info.description == info.number + " (" + quality + "/" + lang + ") "
    ensures info.ratio == 0 && info.avgKBytesSec == 0
    ensures info.qualityTag == quality && info.lang == lang
  {
    var number := PadChannel(channel);
    ChannelInfo(number, number + " (" + quality + "/" + lang + ") ", quality, 0, lang, 0)
  }

  /** The effect of `AddUpdateChannel(channel, channelInfo)` on the dictionary:
      an upsert under the padded key. */
  function AddUpdate(channelDict: Dict<string, ChannelInfo>, channel: string, info: ChannelInfo): (d: Dict<string, ChannelInfo>)
    ensures channelDict.Valid() ==> d.Valid()
    ensures d.entries == channelDict.entries[PadChannel(channel) := info]
    ensures forall k :: k != PadChannel(channel) ==> d.Get(k) == channelDict.Get(k)
    ensures d.Count() == channelDict.Count() + (if PadChannel(channel) in channelDict.entries then 0 else 1)
  {
    channelDict.Upsert(PadChannel(channel), info)
  }

  // ---------------------------------------------------------------------
  // GetSortedChannels

  /** 0: no quality tag, or the tag contains the quality preference;
      1: otherwise no language, or the language contains the language preference;
      2: the rest. */
  function GroupOf(c: ChannelInfo, qualityPref: string, langPref: string): nat {
    if |c.qualityTag| == 0 || ContainsIgnoreCase(c.qualityTag, qualityPref) then 0
    else if |c.lang| == 0 || ContainsIgnoreCase(c.lang, langPref) then 1
    else 2
  }

  /** The channels of `cs` in group `g`, in their order in `cs`. */
  function Group(cs: seq<ChannelInfo>, qualityPref: string, langPref: string, g: nat): (r: seq<ChannelInfo>)
    ensures forall c :: c in r ==> c in cs && GroupOf(c, qualityPref, langPref) == g
    decreases |cs|
  {
    if |cs| == 0 then []
    else
      var front := Group(cs[..|cs| - 1], qualityPref, langPref, g);
      var c := cs[|cs| - 1];
      if GroupOf(c, qualityPref, langPref) == g then front + [c] else front
  }

  /** Ordinal order on strings (shorter prefix first). */
  predicate StrLe(a: string, b: string)
    decreases |a|
  {
    |a| == 0 || (|b| > 0 && (a[0] < b[0] || (a[0] == b[0] && StrLe(a[1..], b[1..]))))
  }

  lemma {:induction false} StrLeTotal(a: string, b: string)
    ensures StrLe(a, b) || StrLe(b, a)
    decreases |a|
  {
    if |a| > 0 && |b| > 0 && a[0] == b[0] {
      StrLeTotal(a[1..], b[1..]);
    }
  }

  predicate SortedByNumber(cs: seq<ChannelInfo>) {
    forall i :: 0 <= i < |cs| - 1 ==> StrLe(cs[i].number, cs[i + 1].number)
  }

  /** Puts `c` after every channel whose number is not greater (stable). */
  function InsertByNumber(c: ChannelInfo, sorted: seq<ChannelInfo>): (r: seq<ChannelInfo>)
    ensures multiset(r) == multiset(sorted) + multiset{c}
    ensures |r| == |sorted| + 1
    ensures SortedByNumber(sorted) ==> SortedByNumber(r)
    ensures |r| > 0 && (r[0] == c || (|sorted| > 0 && r[0] == sorted[0]))
    decreases |sorted|
  {
    if |sorted| == 0 then [c]
    else if !StrLe(sorted[0].number, c.number) then
      StrLeTotal(sorted[0].number, c.number);
      [c] + sorted
    else
      var rest := InsertByNumber(c, sorted[1..]);
      assert sorted == [sorted[0]] + sorted[1..];
      [sorted[0]] + rest
  }

  /** `OrderBy(o => o.number)`: a stable sort by channel number. */
  function OrderByNumber(cs: seq<ChannelInfo>): (r: seq<ChannelInfo>)
    ensures multiset(r) == multiset(cs)
    ensures |r| == |cs|
    ensures SortedByNumber(r)
    decreases |cs|
  {
    if |cs| == 0 then []
    else
      assert cs == cs[..|cs| - 1] + [cs[|cs| - 1]];
      InsertByNumber(cs[|cs| - 1], OrderByNumber(cs[..|cs| - 1]))
  }

  /** The order `GetSortedChannels` returns for channels enumerated as `cs`. */
  function SortedChannels(cs: seq<ChannelInfo>, qualityPref: string, langPref: string): seq<ChannelInfo> {
    OrderByNumber(Group(cs, qualityPref, langPref, 0)) + Group(cs, qualityPref, langPref, 1)
      + Group(cs, qualityPref, langPref, 2)
  }

  /** Every channel of `cs` is in exactly one of the three groups. */
  predicate Partitioned(cs: seq<ChannelInfo>, qualityPref: string, langPref: string) {
    multiset(cs) == multiset(Group(cs, qualityPref, langPref, 0))
                    + multiset(Group(cs, qualityPref, langPref, 1))
                    + multiset(Group(cs, qualityPref, langPref, 2))
  }

  lemma PartitionedSnoc(cs: seq<ChannelInfo>, c: ChannelInfo, qualityPref: string, langPref: string)
    requires Partitioned(cs, qualityPref, langPref)
    ensures Partitioned(cs + [c], qualityPref, langPref)
  {
    assert (cs + [c])[..|cs|] == cs;
  }

  lemma GroupsPartition(cs: seq<ChannelInfo>, qualityPref: string, langPref: string)
    ensures multiset(cs) == multiset(Group(cs, qualityPref, langPref, 0))
                            + multiset(Group(cs, qualityPref, langPref, 1))
                            + multiset(Group(cs, qualityPref, langPref, 2))
  {
    for k := 0 to |cs|
      invariant Partitioned(cs[..k], qualityPref, langPref)
    {
      PartitionedSnoc(cs[..k], cs[k], qualityPref, langPref);
      assert cs[..k + 1] == cs[..k] + [cs[k]];
    }
    assert cs[..|cs|] == cs;
  }

  /** `GetSortedChannels` returns every stored channel exactly once, first the
      group-0 channels ordered by number, then group 1, then group 2 in
      dictionary order. */
  lemma SortedChannelsSpec(cs: seq<ChannelInfo>, qualityPref: string, langPref: string)
    ensures multiset(SortedChannels(cs, qualityPref, langPref)) == multiset(cs)
    ensures var r := SortedChannels(cs, qualityPref, langPref);
            var n0 := |Group(cs, qualityPref, langPref, 0)|;
            var n1 := |Group(cs, qualityPref, langPref, 1)|;
            && n0 + n1 <= |r|
            && (forall i :: 0 <= i < |r| ==>
                  GroupOf(r[i], qualityPref, langPref) == if i < n0 then 0 else if i < n0 + n1 then 1 else 2)
            && SortedByNumber(r[..n0])
  {
    SortedChannelsContents(cs, qualityPref, langPref);
    SortedChannelsBlocks(cs, qualityPref, langPref);
  }

  lemma SortedChannelsContents(cs: seq<ChannelInfo>, qualityPref: string, langPref: string)
    ensures multiset(SortedChannels(cs, qualityPref, langPref)) == multiset(cs)
  {
    GroupsPartition(cs, qualityPref, langPref);
  }

  lemma SortedChannelsBlocks(cs: seq<ChannelInfo>, qualityPref: string, langPref: string)
    ensures var r := SortedChannels(cs, qualityPref, langPref);
            var n0 := |Group(cs, qualityPref, langPref, 0)|;
            var n1 := |Group(cs, qualityPref, langPref, 1)|;
            && n0 + n1 <= |r|
            && (forall i :: 0 <= i < |r| ==>
                  GroupOf(r[i], qualityPref, langPref) == if i < n0 then 0 else if i < n0 + n1 then 1 else 2)
            && SortedByNumber(r[..n0])
  {
    var h := Group(cs, qualityPref, langPref, 0);
    var g0, g1, g2 := OrderByNumber(h), Group(cs, qualityPref, langPref, 1), Group(cs, qualityPref, langPref, 2);
    forall c | c in g0 ensures GroupOf(c, qualityPref, langPref) == 0 {
      assert c in multiset(h);
    }
    Blocks(g0, g1, g2, qualityPref, langPref);
    FrontOfConcat(g0, g1, g2);
  }

  lemma Blocks(g0: seq<ChannelInfo>, g1: seq<ChannelInfo>, g2: seq<ChannelInfo>, qualityPref: string, langPref: string)
    requires forall c :: c in g0 ==> GroupOf(c, qualityPref, langPref) == 0
    requires forall c :: c in g1 ==> GroupOf(c, qualityPref, langPref) == 1
    requires forall c :: c in g2 ==> GroupOf(c, qualityPref, langPref) == 2
    ensures forall i :: 0 <= i < |g0 + g1 + g2| ==>
              GroupOf((g0 + g1 + g2)[i], qualityPref, langPref)
                == if i < |g0| then 0 else if i < |g0| + |g1| then 1 else 2
  {
    var r := g0 + g1 + g2;
    forall i | 0 <= i < |r|
      ensures GroupOf(r[i], qualityPref, langPref) == if i < |g0| then 0 else if i < |g0| + |g1| then 1 else 2
    {
      if i < |g0| {
        assert r[i] == g0[i];
      } else if i < |g0| + |g1| {
        assert r[i] == g1[i - |g0|];
      } else {
        assert r[i] == g2[i - |g0| - |g1|];
      }
    }
  }

  // ---------------------------------------------------------------------
  // GetChannelString

  /** Each description followed by a space, in list order. */
  function ChannelText(cs: seq<ChannelInfo>): string
    decreases |cs|
  {
    if |cs| == 0 then "" else ChannelText(cs[..|cs| - 1]) + cs[|cs| - 1].description + " "
  }

  /** The text of a list is the text of its parts, one after the other. */
  lemma {:induction false} ChannelTextAppend(a: seq<ChannelInfo>, b: seq<ChannelInfo>)
    ensures ChannelText(a + b) == ChannelText(a) + ChannelText(b)
    decreases |b|
  {
    if |b| > 0 {
      assert (a + b)[..|a + b| - 1] == a + b[..|b| - 1];
      ChannelTextAppend(a, b[..|b| - 1]);
    } else {
      assert a + b == a;
    }
  }

  /** The channels of one recording. */
  class Channels {
    var channelDict: Dict<string, ChannelInfo>

    /** Every stored key went through the padding, so none is one character long. */
    ghost predicate Valid()
      reads this
    {
      channelDict.Valid() && forall k :: k in channelDict.entries ==> |k| != 1
    }

    constructor ()
      ensures Valid() && channelDict == EmptyDict()
    {
      channelDict := EmptyDict();
    }

    /** `LoadChannels`: builds an info for every '+'-separated channel and
        discards it, so the dictionary is left as it was. */
    method LoadChannels(strChannels: string)
      requires Valid()
      modifies this
      ensures Valid() && channelDict == old(channelDict)
    {
      var channelArray := Split(strChannels, '+');
      for n := 0 to |channelArray|
        invariant channelDict == old(channelDict)
      {
        var discarded := BuildChannelInfo(channelArray[n], "", "");
      }
    }

    /** `AddUpdateChannel(channel, channelQuality, lang)` */
    method AddUpdateChannel(channel: string, channelQuality: string, lang: string)
      requires Valid()
      modifies this
      ensures Valid()
      ensures channelDict == AddUpdate(old(channelDict), channel, BuildChannelInfo(channel, channelQuality, lang))
    {
      var channelInfo := BuildChannelInfo(channel, channelQuality, lang);
      AddUpdateChannelInfo(channel, channelInfo);
    }

    /** `AddUpdateChannel(channel, channelInfo)`: the key is padded, then the
        entry is overwritten or added. */
    method AddUpdateChannelInfo(channel: string, channelInfo: ChannelInfo)
      requires Valid()
      modifies this
      ensures Valid()
      ensures channelDict == AddUpdate(old(channelDict), channel, channelInfo)
      ensures channelDict.Get(PadChannel(channel)) == Some(channelInfo)
      ensures forall k :: k != PadChannel(channel) ==> channelDict.Get(k) == old(channelDict).Get(k)
      ensures GetNumberOfChannels() == old(GetNumberOfChannels())
                                       + (if PadChannel(channel) in old(channelDict).entries then 0 else 1)
    {
      var key := PadChannel(channel);
      if key in channelDict.entries {
        channelDict := Dict(channelDict.keys, channelDict.entries[key := channelInfo]);
      } else {
        channelDict := Dict(channelDict.keys + [key], channelDict.entries[key := channelInfo]);
      }
    }

    /** `GetChannel`: a lookup under the exact key given, without padding; a
        one-character channel is therefore never found. */
    function GetChannel(channel: string): (r: Option<ChannelInfo>)
      requires Valid()
      reads this
      ensures r.Some? <==> channel in channelDict.entries
      ensures r.Some? ==> r.value == channelDict.entries[channel]
      ensures |channel| == 1 ==> r.None?
    {
      channelDict.Get(channel)
    }

    /** `GetNumberOfChannels`: the number of stored channels. */
    function GetNumberOfChannels(): (n: nat)
      requires Valid()
      reads this
      ensures n == |channelDict.entries|
    {
      CountIsMapSize(channelDict);
      channelDict.Count()
    }

    /** `GetSortedChannels`, with the owning recording's preferences passed in. */
    method GetSortedChannels(qualityPref: string, langPref: string) returns (sorted: seq<ChannelInfo>)
      requires Valid()
      ensures sorted == SortedChannels(channelDict.Values(), qualityPref, langPref)
      ensures multiset(sorted) == multiset(channelDict.Values())
    {
      var values := channelDict.Values();
      var hdChannelsList: seq<ChannelInfo> := [];
      var usChannelsList: seq<ChannelInfo> := [];
      var otherChannelsList: seq<ChannelInfo> := [];
      for n := 0 to |values|
        invariant hdChannelsList == Group(values[..n], qualityPref, langPref, 0)
        invariant usChannelsList == Group(values[..n], qualityPref, langPref, 1)
        invariant otherChannelsList == Group(values[..n], qualityPref, langPref, 2)
      {
        var c := values[n];
        assert values[..n + 1][..n] == values[..n];
        if |c.qualityTag| == 0 || ContainsIgnoreCase(c.qualityTag, qualityPref) {
          hdChannelsList := hdChannelsList + [c];
        } else if |c.lang| == 0 || ContainsIgnoreCase(c.lang, langPref) {
          usChannelsList := usChannelsList + [c];
        } else {
          otherChannelsList := otherChannelsList + [c];
        }
      }
      assert values[..|values|] == values;
      sorted := OrderByNumber(hdChannelsList) + usChannelsList + otherChannelsList;
      SortedChannelsSpec(values, qualityPref, langPref);
    }

    /** `GetChannelString`: every sorted channel's description followed by a space. */
    method GetChannelString(qualityPref: string, langPref: string) returns (channelStr: string)
      requires Valid()
      ensures channelStr == ChannelText(SortedChannels(channelDict.Values(), qualityPref, langPref))
    {
      channelStr := "";
      var sortedChannels := GetSortedChannels(qualityPref, langPref);
      for n := 0 to |sortedChannels|
        invariant channelStr == ChannelText(sortedChannels[..n])
      {
        assert sortedChannels[..n + 1][..n] == sortedChannels[..n];
        channelStr := channelStr + sortedChannels[n].description + " ";
      }
      assert sortedChannels[..|sortedChannels|] == sortedChannels;
    }
  }
}
