/** ServerChannelSelector.cs: the (server, channel, historical rate) pairs a
    capture may use, in the order they are tried, and the cursor that walks
    them once and then settles on the best one. */
module Selector {
  import opened Common
  import opened Text
  import opened ChannelStore
  import opened ServerStore

  /** A `Tuple<ServerInfo, ChannelInfo, long>`. The server and the channel are
      shared objects in the code; here they are positions in the selector's
      server and channel lists, so an update to one is seen by every entry
      that refers to it. */
  datatype Entry = Entry(serverIdx: nat, channelIdx: nat, rate: int)

  // ---------------------------------------------------------------------
  // IsPreferred

  /** The inner loop: some language token `lps[j..]` pairs with `qp`. */
  function LangLoop(c: ChannelInfo, qp: string, lps: seq<string>, j: nat): bool
    requires j <= |lps|
    decreases |lps| - j
  {
    if j == |lps| then false
    else if ContainsIgnoreCase(c.qualityTag, qp) && ContainsIgnoreCase(c.lang, lps[j]) then true
    else LangLoop(c, qp, lps, j + 1)
  }

  /** The outer loop over the quality tokens `qps[i..]`. */
  function QualityLoop(c: ChannelInfo, qps: seq<string>, i: nat, lps: seq<string>): bool
    requires i <= |qps|
    decreases |qps| - i
  {
    if i == |qps| then false
    else if LangLoop(c, qps[i], lps, 0) then true
    else QualityLoop(c, qps, i + 1, lps)
  }

  /** `IsPreferred`, with the record's preferences passed in. */
  function IsPreferred(c: ChannelInfo, qualityPref: string, langPref: string): bool {
    QualityLoop(c, Split(qualityPref, ','), 0, Split(langPref, ','))
  }

  lemma {:induction false} LangLoopSpec(c: ChannelInfo, qp: string, lps: seq<string>, j: nat)
    requires j <= |lps|
    ensures LangLoop(c, qp, lps, j) <==>
              ContainsIgnoreCase(c.qualityTag, qp) && exists k :: j <= k < |lps| && ContainsIgnoreCase(c.lang, lps[k])
    decreases |lps| - j
  {
    if j < |lps| {
      LangLoopSpec(c, qp, lps, j + 1);
    }
  }

  lemma {:induction false} QualityLoopSpec(c: ChannelInfo, qps: seq<string>, i: nat, lps: seq<string>)
    requires i <= |qps|
    ensures QualityLoop(c, qps, i, lps) <==>
              (exists k :: i <= k < |qps| && ContainsIgnoreCase(c.qualityTag, qps[k]))
              && exists k :: 0 <= k < |lps| && ContainsIgnoreCase(c.lang, lps[k])
    decreases |qps| - i
  {
    if i < |qps| {
      LangLoopSpec(c, qps[i], lps, 0);
      QualityLoopSpec(c, qps, i + 1, lps);
    }
  }

  /** Some token of `tokens` occurs in `s`, ignoring case. */
  predicate SomeTokenIn(s: string, tokens: seq<string>) {
    exists k :: 0 <= k < |tokens| && ContainsIgnoreCase(s, tokens[k])
  }

  /** A channel is preferred exactly when some quality token occurs in its
      quality tag and some language token occurs in its language, ignoring case. */
  lemma IsPreferredIff(c: ChannelInfo, qualityPref: string, langPref: string)
    ensures IsPreferred(c, qualityPref, langPref) <==>
              SomeTokenIn(c.qualityTag, Split(qualityPref, ',')) && SomeTokenIn(c.lang, Split(langPref, ','))
  {
    var qps := Split(qualityPref, ',');
    var lps := Split(langPref, ',');
    QualityLoopSpec(c, qps, 0, lps);
    assert IsPreferred(c, qualityPref, langPref) == QualityLoop(c, qps, 0, lps);
  }

  /** Empty preferences make every channel preferred. */
  lemma EmptyPreferencesPreferAll(c: ChannelInfo)
    ensures IsPreferred(c, "", "")
  {
    assert Split("", ',') == [""];
    assert ToLower("") == "";
    ContainsEmpty(ToLower(c.qualityTag));
    ContainsEmpty(ToLower(c.lang));
    assert LangLoop(c, "", [""], 0);
  }

  // ---------------------------------------------------------------------
  // InsertChannelInfo

  /** Non-increasing by historical rate. */
  predicate NonIncreasing(list: seq<Entry>) {
    forall i, j :: 0 <= i < j < |list| ==> list[i].rate >= list[j].rate
  }

  /** The first position whose rate is strictly below `rate`, or `|list|`. */
  function FirstSmaller(list: seq<Entry>, rate: int): (p: nat)
    ensures p <= |list|
    ensures forall i :: 0 <= i < p ==> list[i].rate >= rate
    ensures p < |list| ==> list[p].rate < rate
  {
    if |list| == 0 then 0
    else if rate > list[0].rate then 0
    else 1 + FirstSmaller(list[1..], rate)
  }

  /** What `InsertChannelInfo` does from server `k` on: the entry for server
      `k` goes before the first smaller rate and the method returns, or it is
      appended and the next server is tried. */
  function InsertFrom(list: seq<Entry>, channelIdx: nat, number: string, servers: seq<ServerInfo>, k: nat,
                      rateOf: (string, string) -> int): seq<Entry>
    requires k <= |servers|
    decreases |servers| - k
  {
    if k == |servers| then list
    else
      var rate := rateOf(servers[k].server, number);
      var p := FirstSmaller(list, rate);
      if p < |list| then list[..p] + [Entry(k, channelIdx, rate)] + list[p..]
      else InsertFrom(list + [Entry(k, channelIdx, rate)], channelIdx, number, servers, k + 1, rateOf)
  }

  /** Inserting before the first smaller rate keeps a non-increasing list so. */
  lemma InsertAtKeepsOrder(list: seq<Entry>, e: Entry)
    requires NonIncreasing(list)
    ensures var p := FirstSmaller(list, e.rate); NonIncreasing(list[..p] + [e] + list[p..])
  {
    var p := FirstSmaller(list, e.rate);
    var r := list[..p] + [e] + list[p..];
    forall i, j | 0 <= i < j < |r| ensures r[i].rate >= r[j].rate {
      if j < p {
        assert r[i] == list[i] && r[j] == list[j];
      } else if j == p {
        assert r[i] == list[i];
      } else if i < p {
        assert r[i] == list[i] && r[j] == list[j - 1];
      } else if i == p {
        assert r[j] == list[j - 1];
        if p < j - 1 {
          assert list[p].rate >= list[j - 1].rate;
        }
      } else {
        assert r[i] == list[i - 1] && r[j] == list[j - 1];
      }
    }
  }

  /** The entries of a list with `e` inserted at `p`: those of the list and `e`. */
  lemma InsertAtContents(list: seq<Entry>, e: Entry, p: nat)
    requires p <= |list|
    ensures multiset(list[..p] + [e] + list[p..]) == multiset(list) + multiset{e}
    ensures forall x :: x in list[..p] + [e] + list[p..] ==> x in list || x == e
  {
    assert list == list[..p] + list[p..];
  }

  lemma AppendKeepsOrder(list: seq<Entry>, e: Entry)
    requires NonIncreasing(list)
    requires forall i :: 0 <= i < |list| ==> list[i].rate >= e.rate
    ensures NonIncreasing(list + [e])
  {
    var list' := list + [e];
    forall i, j | 0 <= i < j < |list'| ensures list'[i].rate >= list'[j].rate {
      assert list'[i] == list[i];
      if j < |list| {
        assert list'[j] == list[j];
      }
    }
  }

  /** `InsertChannelInfo` keeps a list ordered non-increasing by rate. */
  lemma {:induction false} InsertFromOrder(list: seq<Entry>, channelIdx: nat, number: string, servers: seq<ServerInfo>,
                                           k: nat, rateOf: (string, string) -> int)
    requires k <= |servers| && NonIncreasing(list)
    ensures NonIncreasing(InsertFrom(list, channelIdx, number, servers, k, rateOf))
    decreases |servers| - k
  {
    if k < |servers| {
      var rate := rateOf(servers[k].server, number);
      var e := Entry(k, channelIdx, rate);
      var p := FirstSmaller(list, rate);
      if p < |list| {
        InsertAtKeepsOrder(list, e);
      } else {
        AppendKeepsOrder(list, e);
        InsertFromOrder(list + [e], channelIdx, number, servers, k + 1, rateOf);
      }
    }
  }

  /** The entries of `channelIdx` for servers `k` up to `m`, in server order,
      each with its server's historical rate. */
  function Added(channelIdx: nat, number: string, servers: seq<ServerInfo>, k: nat, m: nat,
                 rateOf: (string, string) -> int): (a: seq<Entry>)
    requires k <= m <= |servers|
    ensures |a| == m - k
    ensures forall i :: 0 <= i < m - k ==> a[i] == Entry(k + i, channelIdx, rateOf(servers[k + i].server, number))
  {
    seq(m - k, i requires 0 <= i < m - k => Entry(k + i, channelIdx, rateOf(servers[k + i].server, number)))
  }

  lemma AddedCons(channelIdx: nat, number: string, servers: seq<ServerInfo>, k: nat, m: nat,
                  rateOf: (string, string) -> int)
    requires k < m <= |servers|
    ensures Added(channelIdx, number, servers, k, m, rateOf)
            == [Entry(k, channelIdx, rateOf(servers[k].server, number))] + Added(channelIdx, number, servers, k + 1, m, rateOf)
  {
  }

  /** `InsertChannelInfo` keeps every entry it was given and adds exactly one
      entry of this channel for each server from `k` up to the one whose
      entry landed inside the list (or up to the last server), each carrying
      its server's historical rate: at most one per server. */
  lemma {:induction false} InsertFromContents(list: seq<Entry>, channelIdx: nat, number: string, servers: seq<ServerInfo>,
                                              k: nat, rateOf: (string, string) -> int)
    requires k <= |servers|
    ensures var r := InsertFrom(list, channelIdx, number, servers, k, rateOf);
            && multiset(list) <= multiset(r)
            && |list| <= |r| <= |list| + |servers| - k
            && (forall e :: e in r ==> e in list || (e.channelIdx == channelIdx && k <= e.serverIdx < |servers|
                                                     && e.rate == rateOf(servers[e.serverIdx].server, number)))
            && exists m :: k <= m <= |servers| &&
                           multiset(r) == multiset(list) + multiset(Added(channelIdx, number, servers, k, m, rateOf))
    decreases |servers| - k
  {
    var r := InsertFrom(list, channelIdx, number, servers, k, rateOf);
    if k < |servers| {
      var rate := rateOf(servers[k].server, number);
      var e := Entry(k, channelIdx, rate);
      var p := FirstSmaller(list, rate);
      if p < |list| {
        InsertAtContents(list, e, p);
        assert Added(channelIdx, number, servers, k, k + 1, rateOf) == [e];
      } else {
        InsertFromContents(list + [e], channelIdx, number, servers, k + 1, rateOf);
        assert multiset(list + [e]) == multiset(list) + multiset{e};
        var m :| k + 1 <= m <= |servers| &&
                 multiset(r) == multiset(list + [e]) + multiset(Added(channelIdx, number, servers, k + 1, m, rateOf));
        AddedCons(channelIdx, number, servers, k, m, rateOf);
        assert multiset(r) == multiset(list) + multiset(Added(channelIdx, number, servers, k, m, rateOf));
      }
    } else {
      assert multiset(r) == multiset(list) + multiset(Added(channelIdx, number, servers, k, k, rateOf));
    }
  }

  /** The early `return`: once the entry of server `k` lands inside the list,
      it is inserted there and the remaining servers are never tried for
      this channel, however high their rates; only that one entry is new. */
  lemma EarlyReturn(list: seq<Entry>, channelIdx: nat, number: string, servers: seq<ServerInfo>, k: nat,
                    rateOf: (string, string) -> int)
    requires k < |servers| && FirstSmaller(list, rateOf(servers[k].server, number)) < |list|
    ensures var rate := rateOf(servers[k].server, number);
            var p := FirstSmaller(list, rate);
            var r := InsertFrom(list, channelIdx, number, servers, k, rateOf);
            && r == list[..p] + [Entry(k, channelIdx, rate)] + list[p..]
            && multiset(r) == multiset(list) + multiset{Entry(k, channelIdx, rate)}
            && forall e :: e in r && e.serverIdx > k ==> e in list
  {
    var rate := rateOf(servers[k].server, number);
    InsertAtContents(list, Entry(k, channelIdx, rate), FirstSmaller(list, rate));
  }

  /** `InsertChannelInfo`: the list is a local of the caller, updated in place. */
  method InsertChannelInfo(tupleList: seq<Entry>, channelIdx: nat, number: string, serverList: seq<ServerInfo>,
                           rateOf: (string, string) -> int) returns (r: seq<Entry>)
    ensures r == InsertFrom(tupleList, channelIdx, number, serverList, 0, rateOf)
  {
    r := tupleList;
    for k := 0 to |serverList|
      invariant InsertFrom(r, channelIdx, number, serverList, k, rateOf)
                == InsertFrom(tupleList, channelIdx, number, serverList, 0, rateOf)
    {
      var avgKBytesSec := rateOf(serverList[k].server, number);
      var index := 0;
      while index < |r|
        invariant 0 <= index <= |r|
        invariant forall i :: 0 <= i < index ==> r[i].rate >= avgKBytesSec
      {
        if avgKBytesSec > r[index].rate {
          assert FirstSmaller(r, avgKBytesSec) == index by {
            FirstSmallerIs(r, avgKBytesSec, index);
          }
          r := r[..index] + [Entry(k, channelIdx, avgKBytesSec)] + r[index..];
          return;
        }
        index := index + 1;
      }
      FirstSmallerIs(r, avgKBytesSec, |r|);
      r := r + [Entry(k, channelIdx, avgKBytesSec)];
    }
  }

  lemma {:induction false} FirstSmallerIs(list: seq<Entry>, rate: int, p: nat)
    requires p <= |list|
    requires forall i :: 0 <= i < p ==> list[i].rate >= rate
    requires p < |list| ==> list[p].rate < rate
    ensures FirstSmaller(list, rate) == p
    decreases p
  {
    if p > 0 {
      FirstSmallerIs(list[1..], rate, p - 1);
    }
  }

  // ---------------------------------------------------------------------
  // BuildSortedTupleList

  /** The preferred and the other list after the channels `channels[..n]`. */
  function BuildLists(channels: seq<ChannelInfo>, n: nat, servers: seq<ServerInfo>, qualityPref: string,
                      langPref: string, rateOf: (string, string) -> int): (lists: (seq<Entry>, seq<Entry>))
    requires n <= |channels|
    decreases n
  {
    if n == 0 then ([], [])
    else
      var lists := BuildLists(channels, n - 1, servers, qualityPref, langPref, rateOf);
      var c := channels[n - 1];
      if IsPreferred(c, qualityPref, langPref) then
        (InsertFrom(lists.0, n - 1, c.number, servers, 0, rateOf), lists.1)
      else
        (lists.0, InsertFrom(lists.1, n - 1, c.number, servers, 0, rateOf))
  }

  /** Every entry of `list` refers to a known server, to one of the first `n`
      channels, and to a channel whose preference is `preferred`. */
  predicate EntriesOf(list: seq<Entry>, channels: seq<ChannelInfo>, n: nat, servers: seq<ServerInfo>,
                      qualityPref: string, langPref: string, preferred: bool)
    requires n <= |channels|
  {
    forall e :: e in list ==> e.serverIdx < |servers| && e.channelIdx < n
                              && IsPreferred(channels[e.channelIdx], qualityPref, langPref) == preferred
  }

  lemma InsertKeepsEntriesOf(list: seq<Entry>, channels: seq<ChannelInfo>, n: nat, servers: seq<ServerInfo>,
                             qualityPref: string, langPref: string, preferred: bool, rateOf: (string, string) -> int)
    requires n < |channels|
    requires EntriesOf(list, channels, n, servers, qualityPref, langPref, preferred)
    requires IsPreferred(channels[n], qualityPref, langPref) == preferred
    ensures EntriesOf(InsertFrom(list, n, channels[n].number, servers, 0, rateOf), channels, n + 1, servers,
                      qualityPref, langPref, preferred)
  {
    InsertFromContents(list, n, channels[n].number, servers, 0, rateOf);
  }

  /** The four facts `BuildListsSpec` carries from channel to channel. */
  predicate ListsOk(lists: (seq<Entry>, seq<Entry>), channels: seq<ChannelInfo>, n: nat, servers: seq<ServerInfo>,
                    qualityPref: string, langPref: string)
    requires n <= |channels|
  {
    && NonIncreasing(lists.0) && NonIncreasing(lists.1)
    && EntriesOf(lists.0, channels, n, servers, qualityPref, langPref, true)
    && EntriesOf(lists.1, channels, n, servers, qualityPref, langPref, false)
  }

  /** `ListsOk` of the lists built from the first `n` channels. */
  predicate BuiltOk(channels: seq<ChannelInfo>, n: nat, servers: seq<ServerInfo>, qualityPref: string,
                    langPref: string, rateOf: (string, string) -> int)
    requires n <= |channels|
  {
    ListsOk(BuildLists(channels, n, servers, qualityPref, langPref, rateOf), channels, n, servers, qualityPref, langPref)
  }

  lemma BuildListsStep(channels: seq<ChannelInfo>, n: nat, servers: seq<ServerInfo>,
                       qualityPref: string, langPref: string, rateOf: (string, string) -> int)
    requires n < |channels|
    ensures BuiltOk(channels, n, servers, qualityPref, langPref, rateOf)
            ==> BuiltOk(channels, n + 1, servers, qualityPref, langPref, rateOf)
  {
    if !BuiltOk(channels, n, servers, qualityPref, langPref, rateOf) {
      return;
    }
    var lists := BuildLists(channels, n, servers, qualityPref, langPref, rateOf);
    var c := channels[n];
    if IsPreferred(c, qualityPref, langPref) {
      InsertFromOrder(lists.0, n, c.number, servers, 0, rateOf);
      InsertKeepsEntriesOf(lists.0, channels, n, servers, qualityPref, langPref, true, rateOf);
      assert EntriesOf(lists.1, channels, n + 1, servers, qualityPref, langPref, false);
    } else {
      InsertFromOrder(lists.1, n, c.number, servers, 0, rateOf);
      InsertKeepsEntriesOf(lists.1, channels, n, servers, qualityPref, langPref, false, rateOf);
      assert EntriesOf(lists.0, channels, n + 1, servers, qualityPref, langPref, true);
    }
  }

  /** Both lists are ordered non-increasing by rate, every entry refers to a
      known server and channel, and the preferred list holds exactly the
      entries of preferred channels. */
  lemma {:induction false} BuildListsSpec(channels: seq<ChannelInfo>, n: nat, servers: seq<ServerInfo>,
                                          qualityPref: string, langPref: string, rateOf: (string, string) -> int)
    requires n <= |channels|
    ensures BuiltOk(channels, n, servers, qualityPref, langPref, rateOf)
  {
    assert BuildLists(channels, 0, servers, qualityPref, langPref, rateOf) == ([], []);
    for k := 0 to n
      invariant BuiltOk(channels, k, servers, qualityPref, langPref, rateOf)
    {
      BuildListsStep(channels, k, servers, qualityPref, langPref, rateOf);
    }
  }

  /** The order the pairs are tried in: the preferred list, then the others. */
  function SortedTupleList(channels: seq<ChannelInfo>, servers: seq<ServerInfo>, qualityPref: string,
                           langPref: string, rateOf: (string, string) -> int): seq<Entry>
  {
    var lists := BuildLists(channels, |channels|, servers, qualityPref, langPref, rateOf);
    lists.0 + lists.1
  }

  /** Every entry refers to a known server and channel. */
  predicate RefsOk(list: seq<Entry>, serverCount: nat, channelCount: nat) {
    forall i :: 0 <= i < |list| ==> list[i].serverIdx < serverCount && list[i].channelIdx < channelCount
  }

  /** In the final list every entry of a preferred channel comes before every
      entry of another channel, and within each of the two parts the rates
      do not increase. */
  lemma SortedTupleListSpec(channels: seq<ChannelInfo>, servers: seq<ServerInfo>, qualityPref: string,
                            langPref: string, rateOf: (string, string) -> int)
    ensures var list := SortedTupleList(channels, servers, qualityPref, langPref, rateOf);
            && RefsOk(list, |servers|, |channels|)
            && (forall i, j :: 0 <= i < j < |list| && IsPreferred(channels[list[j].channelIdx], qualityPref, langPref)
                  ==> IsPreferred(channels[list[i].channelIdx], qualityPref, langPref))
            && (forall i, j :: 0 <= i < j < |list|
                  && IsPreferred(channels[list[i].channelIdx], qualityPref, langPref)
                     == IsPreferred(channels[list[j].channelIdx], qualityPref, langPref)
                  ==> list[i].rate >= list[j].rate)
  {
    BuildListsSpec(channels, |channels|, servers, qualityPref, langPref, rateOf);
    var lists := BuildLists(channels, |channels|, servers, qualityPref, langPref, rateOf);
    JoinOrder(lists, channels, servers, qualityPref, langPref);
    JoinRates(lists, channels, servers, qualityPref, langPref);
  }

  /** Joined, the two lists refer to known servers and channels and put the
      preferred channels first. */
  lemma JoinOrder(lists: (seq<Entry>, seq<Entry>), channels: seq<ChannelInfo>, servers: seq<ServerInfo>,
                  qualityPref: string, langPref: string)
    requires ListsOk(lists, channels, |channels|, servers, qualityPref, langPref)
    ensures var list := lists.0 + lists.1;
            && RefsOk(list, |servers|, |channels|)
            && (forall i :: 0 <= i < |list| ==>
                  (IsPreferred(channels[list[i].channelIdx], qualityPref, langPref) <==> i < |lists.0|))
  {
    var preferred, others := lists.0, lists.1;
    var list := preferred + others;
    forall i | 0 <= i < |list|
      ensures list[i].serverIdx < |servers| && list[i].channelIdx < |channels|
      ensures IsPreferred(channels[list[i].channelIdx], qualityPref, langPref) <==> i < |preferred|
    {
      if i < |preferred| {
        assert list[i] == preferred[i] && preferred[i] in preferred;
      } else {
        assert list[i] == others[i - |preferred|] && others[i - |preferred|] in others;
      }
    }
  }

  /** Joined, the two lists keep the rates non-increasing within each part. */
  lemma JoinRates(lists: (seq<Entry>, seq<Entry>), channels: seq<ChannelInfo>, servers: seq<ServerInfo>,
                  qualityPref: string, langPref: string)
    requires ListsOk(lists, channels, |channels|, servers, qualityPref, langPref)
    ensures var list := lists.0 + lists.1;
            && RefsOk(list, |servers|, |channels|)
            && (forall i, j :: 0 <= i < j < |list|
                  && IsPreferred(channels[list[i].channelIdx], qualityPref, langPref)
                     == IsPreferred(channels[list[j].channelIdx], qualityPref, langPref)
                  ==> list[i].rate >= list[j].rate)
  {
    JoinOrder(lists, channels, servers, qualityPref, langPref);
    var preferred, others := lists.0, lists.1;
    var list := preferred + others;
    forall i, j | 0 <= i < j < |list|
                  && IsPreferred(channels[list[i].channelIdx], qualityPref, langPref)
                     == IsPreferred(channels[list[j].channelIdx], qualityPref, langPref)
      ensures list[i].rate >= list[j].rate
    {
      if j < |preferred| {
        assert list[i] == preferred[i] && list[j] == preferred[j];
      } else {
        assert list[i] == others[i - |preferred|] && list[j] == others[j - |preferred|];
      }
    }
  }

  // ---------------------------------------------------------------------
  // The selector

  /** The first entry with the strictly greatest positive rate among
      `list[..n]` (later equal rates do not displace it), if any. */
  function BestUpTo(list: seq<Entry>, n: nat): (b: Option<nat>)
    requires n <= |list|
    ensures b.Some? ==> b.value < n
    decreases n
  {
    if n == 0 then None
    else
      var b := BestUpTo(list, n - 1);
      var bestAvgKB := if b.None? then 0 else list[b.value].rate;
      if list[n - 1].rate > bestAvgKB then Some(n - 1) else b
  }

  lemma {:induction false} BestUpToSpec(list: seq<Entry>, n: nat)
    requires n <= |list|
    ensures BestUpTo(list, n).None? <==> forall j :: 0 <= j < n ==> list[j].rate <= 0
    ensures BestUpTo(list, n).Some? ==>
              var b := BestUpTo(list, n).value;
              && list[b].rate > 0
              && (forall j :: 0 <= j < n ==> list[j].rate <= list[b].rate)
              && (forall j :: 0 <= j < b ==> list[j].rate < list[b].rate)
    decreases n
  {
    if n > 0 {
      BestUpToSpec(list, n - 1);
    }
  }

  class ServerChannelSelector {
    var servers: seq<ServerInfo>
    var channels: seq<ChannelInfo>
    var sortedTupleList: seq<Entry>
    var tupleIdx: nat
    var bestTupleSelectedFlag: bool

    ghost predicate Valid()
      reads this
    {
      && RefsOk(sortedTupleList, |servers|, |channels|)
      && (bestTupleSelectedFlag ==> tupleIdx < |sortedTupleList|)
    }

    /** The constructor builds the sorted list; the cursor starts on entry 0. */
    constructor (serverList: seq<ServerInfo>, channelList: seq<ChannelInfo>, qualityPref: string, langPref: string,
                 rateOf: (string, string) -> int)
      ensures Valid()
      ensures servers == serverList && channels == channelList
      ensures sortedTupleList == SortedTupleList(channelList, serverList, qualityPref, langPref, rateOf)
      ensures tupleIdx == 0 && !bestTupleSelectedFlag
    {
      servers := serverList;
      channels := channelList;
      tupleIdx := 0;
      bestTupleSelectedFlag := false;
      new;
      BuildSortedTupleList(qualityPref, langPref, rateOf);
      SortedTupleListSpec(channelList, serverList, qualityPref, langPref, rateOf);
    }

    /** `BuildSortedTupleList` */
    method BuildSortedTupleList(qualityPref: string, langPref: string, rateOf: (string, string) -> int)
      modifies this
      ensures sortedTupleList == SortedTupleList(channels, servers, qualityPref, langPref, rateOf)
      ensures servers == old(servers) && channels == old(channels)
      ensures tupleIdx == old(tupleIdx) && bestTupleSelectedFlag == old(bestTupleSelectedFlag)
    {
      var channelInfoList := channels;
      var serverList := servers;
      var preferredChannelsList: seq<Entry> := [];
      var otherChannelsList: seq<Entry> := [];
      for n := 0 to |channelInfoList|
        invariant (preferredChannelsList, otherChannelsList)
                  == BuildLists(channelInfoList, n, serverList, qualityPref, langPref, rateOf)
        invariant servers == serverList && channels == channelInfoList
        invariant tupleIdx == old(tupleIdx) && bestTupleSelectedFlag == old(bestTupleSelectedFlag)
      {
        var channelInfo := channelInfoList[n];
        if IsPreferred(channelInfo, qualityPref, langPref) {
          preferredChannelsList := InsertChannelInfo(preferredChannelsList, n, channelInfo.number, serverList, rateOf);
        } else {
          otherChannelsList := InsertChannelInfo(otherChannelsList, n, channelInfo.number, serverList, rateOf);
        }
      }
      sortedTupleList := preferredChannelsList + otherChannelsList;
    }

    /** `GetServerName`; `None` where the code indexes past the end. */
    function GetServerName(): (name: Option<string>)
      requires Valid()
      reads this
      ensures name.Some? <==> tupleIdx < |sortedTupleList|
      ensures name.Some? ==> name.value == servers[sortedTupleList[tupleIdx].serverIdx].server
    {
      if tupleIdx < |sortedTupleList| then
        Some(servers[sortedTupleList[tupleIdx].serverIdx].server)
      else None
    }

    /** `GetChannelNumber`; `None` where the code indexes past the end. */
    function GetChannelNumber(): (number: Option<string>)
      requires Valid()
      reads this
      ensures number.Some? <==> tupleIdx < |sortedTupleList|
      ensures number.Some? ==> number.value == channels[sortedTupleList[tupleIdx].channelIdx].number
    {
      if tupleIdx < |sortedTupleList| then
        Some(channels[sortedTupleList[tupleIdx].channelIdx].number)
      else None
    }

    /** `SetAvgKBytesSec`: folds the observed rate into the current channel's
        and server's running averages. The stored historical rates, and with
        them the order and the choice of the best entry, do not change. */
    method SetAvgKBytesSec(avgKBytesSec: int)
      requires Valid() && tupleIdx < |sortedTupleList|
      modifies this
      ensures Valid()
      ensures var e := old(sortedTupleList[tupleIdx]);
              && channels == old(channels)[e.channelIdx := old(channels)[e.channelIdx].(
                   avgKBytesSec := Avg(old(channels)[e.channelIdx].avgKBytesSec, avgKBytesSec))]
              && servers == old(servers)[e.serverIdx := old(servers)[e.serverIdx].(
                   avgKBytesSec := Avg(old(servers)[e.serverIdx].avgKBytesSec, avgKBytesSec))]
      ensures sortedTupleList == old(sortedTupleList)
      ensures tupleIdx == old(tupleIdx) && bestTupleSelectedFlag == old(bestTupleSelectedFlag)
    {
      var e := sortedTupleList[tupleIdx];
      var currentChannel := channels[e.channelIdx];
      var currentServer := servers[e.serverIdx];
      channels := channels[e.channelIdx := currentChannel.(avgKBytesSec := Avg(currentChannel.avgKBytesSec, avgKBytesSec))];
      servers := servers[e.serverIdx := currentServer.(avgKBytesSec := Avg(currentServer.avgKBytesSec, avgKBytesSec))];
    }

    /** `GetNextServerChannel`. Pinned: the current entry, nothing changes.
        Otherwise the cursor moves on by one while entries remain; past the
        end it pins to the first entry with the strictly greatest positive
        rate. With no positive rate the code indexes past the end: `None`,
        the cursor left one further on and nothing pinned. */
    method GetNextServerChannel() returns (r: Option<Entry>)
      requires Valid()
      modifies this
      ensures Valid()
      ensures sortedTupleList == old(sortedTupleList) && servers == old(servers) && channels == old(channels)
      ensures old(bestTupleSelectedFlag) ==>
                tupleIdx == old(tupleIdx) && bestTupleSelectedFlag && r == Some(sortedTupleList[tupleIdx])
      ensures !old(bestTupleSelectedFlag) && old(tupleIdx) + 1 < |sortedTupleList| ==>
                tupleIdx == old(tupleIdx) + 1 && !bestTupleSelectedFlag && r == Some(sortedTupleList[tupleIdx])
      ensures !old(bestTupleSelectedFlag) && old(tupleIdx) + 1 >= |sortedTupleList| ==>
                match BestUpTo(sortedTupleList, |sortedTupleList|)
                case Some(b) => tupleIdx == b && bestTupleSelectedFlag && r == Some(sortedTupleList[b])
                case None => tupleIdx == old(tupleIdx) + 1 && !bestTupleSelectedFlag && r.None?
    {
      if bestTupleSelectedFlag {
        return Some(sortedTupleList[tupleIdx]);
      }
      tupleIdx := tupleIdx + 1;
      if tupleIdx < |sortedTupleList| {
        return Some(sortedTupleList[tupleIdx]);
      }
      var list := sortedTupleList;
      var best := tupleIdx;
      var bestAvgKB := 0;
      for idx := 0 to |list|
        invariant var b := BestUpTo(list, idx);
                  && bestAvgKB == (if b.None? then 0 else list[b.value].rate)
                  && best == (if b.None? then old(tupleIdx) + 1 else b.value)
      {
        var tuple := list[idx];
        if tuple.rate > bestAvgKB {
          bestAvgKB := tuple.rate;
          best := idx;
        }
      }
      tupleIdx := best;
      if tupleIdx < |list| {
        bestTupleSelectedFlag := true;
        r := Some(list[tupleIdx]);
      } else {
        r := None;
      }
    }
  }
}
