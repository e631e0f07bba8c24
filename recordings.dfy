/** Recordings.cs: the shows to record, filed by name and start time, and the
    queue of those to capture now, ordered by start time and limited by the
    number of captures allowed at once. */
module Planner {
  import opened Common
  import opened Text
  import opened ChannelStore
  import opened Records
  import opened Keywords

  function Start(r: RecordInfo, now: int): int { GetStartDT(r, now) }
  function End(r: RecordInfo, now: int): int { GetEndDT(r, now) }

  // ---------------------------------------------------------------------
  // SortBasedOnKeywordPos

  predicate SortedByPos(s: seq<RecordInfo>) {
    forall i, j :: 0 <= i < j < |s| ==> s[i].keywordPos <= s[j].keywordPos
  }

  /** The first position whose keyword position is at least `pos`, or `|s|`. */
  function FirstAtLeastPos(s: seq<RecordInfo>, pos: int): (p: nat)
    ensures p <= |s|
    ensures forall i :: 0 <= i < p ==> s[i].keywordPos < pos
    ensures p < |s| ==> pos <= s[p].keywordPos
  {
    if |s| == 0 || pos <= s[0].keywordPos then 0 else 1 + FirstAtLeastPos(s[1..], pos)
  }

  lemma {:induction false} FirstAtLeastPosIs(s: seq<RecordInfo>, pos: int, p: nat)
    requires p <= |s|
    requires forall i :: 0 <= i < p ==> s[i].keywordPos < pos
    requires p < |s| ==> pos <= s[p].keywordPos
    ensures FirstAtLeastPos(s, pos) == p
    decreases p
  {
    if p > 0 {
      FirstAtLeastPosIs(s[1..], pos, p - 1);
    }
  }

  /** One step of the sort: `r` goes before the first record whose keyword
      position is at least its own. */
  function InsertByPos(r: RecordInfo, s: seq<RecordInfo>): seq<RecordInfo> {
    var p := FirstAtLeastPos(s, r.keywordPos);
    s[..p] + [r] + s[p..]
  }

  /** The sort after the first `n` records of `list`. */
  function SortByPosUpTo(list: seq<RecordInfo>, n: nat): seq<RecordInfo>
    requires n <= |list|
    decreases n
  {
    if n == 0 then [] else InsertByPos(list[n - 1], SortByPosUpTo(list, n - 1))
  }

  function SortByPos(list: seq<RecordInfo>): seq<RecordInfo> {
    SortByPosUpTo(list, |list|)
  }

  lemma InsertByPosContents(r: RecordInfo, s: seq<RecordInfo>)
    ensures multiset(InsertByPos(r, s)) == multiset(s) + multiset{r}
  {
    var p := FirstAtLeastPos(s, r.keywordPos);
    assert s == s[..p] + s[p..];
  }

  lemma InsertByPosOrder(r: RecordInfo, s: seq<RecordInfo>)
    requires SortedByPos(s)
    ensures SortedByPos(InsertByPos(r, s))
  {
    var p := FirstAtLeastPos(s, r.keywordPos);
    var t := s[..p] + [r] + s[p..];
    forall i, j | 0 <= i < j < |t| ensures t[i].keywordPos <= t[j].keywordPos {
      SpliceIndex(s, r, p, i);
      SpliceIndex(s, r, p, j);
      if i == p && p < j - 1 {
        assert s[p].keywordPos <= s[j - 1].keywordPos;
      }
    }
  }

  /** The element at position `i` once `r` is put at position `p`. */
  lemma SpliceIndex<T>(s: seq<T>, r: T, p: nat, i: nat)
    requires p <= |s| && i <= |s|
    ensures (s[..p] + [r] + s[p..])[i] == if i < p then s[i] else if i == p then r else s[i - 1]
  {
  }

  lemma PrefixMultisetSnoc<T>(s: seq<T>, n: nat)
    requires 0 < n <= |s|
    ensures multiset(s[..n]) == multiset(s[..n - 1]) + multiset{s[n - 1]}
  {
    assert s[..n] == s[..n - 1] + [s[n - 1]];
  }

  lemma SortStepContents(list: seq<RecordInfo>, n: nat)
    requires 0 < n <= |list|
    ensures multiset(SortByPosUpTo(list, n)) == multiset(SortByPosUpTo(list, n - 1)) + multiset{list[n - 1]}
  {
    InsertByPosContents(list[n - 1], SortByPosUpTo(list, n - 1));
  }

  /** `SortBasedOnKeywordPos` returns a permutation of its input. */
  lemma {:induction false} SortByPosUpToContents(list: seq<RecordInfo>, n: nat)
    requires n <= |list|
    ensures multiset(SortByPosUpTo(list, n)) == multiset(list[..n])
    decreases n
  {
    if n == 0 {
      assert list[..n] == [];
    } else {
      SortByPosUpToContents(list, n - 1);
      SortStepContents(list, n);
      PrefixMultisetSnoc(list, n);
    }
  }

  /** `SortBasedOnKeywordPos` orders its result by keyword position. */
  lemma {:induction false} SortByPosUpToOrder(list: seq<RecordInfo>, n: nat)
    requires n <= |list|
    ensures SortedByPos(SortByPosUpTo(list, n))
    decreases n
  {
    if n > 0 {
      SortByPosUpToOrder(list, n - 1);
      InsertByPosOrder(list[n - 1], SortByPosUpTo(list, n - 1));
    }
  }

  /** The records with keyword position `pos`, in order. */
  function WithPos(s: seq<RecordInfo>, pos: int): seq<RecordInfo>
    decreases |s|
  {
    if |s| == 0 then []
    else WithPos(s[..|s| - 1], pos) + (if s[|s| - 1].keywordPos == pos then [s[|s| - 1]] else [])
  }

  function Reverse<T>(s: seq<T>): seq<T>
    decreases |s|
  {
    if |s| == 0 then [] else [s[|s| - 1]] + Reverse(s[..|s| - 1])
  }

  lemma {:induction false} WithPosAppend(a: seq<RecordInfo>, b: seq<RecordInfo>, pos: int)
    ensures WithPos(a + b, pos) == WithPos(a, pos) + WithPos(b, pos)
    decreases |b|
  {
    if |b| == 0 {
      assert a + b == a;
    } else {
      assert (a + b)[..|a + b| - 1] == a + b[..|b| - 1];
      WithPosAppend(a, b[..|b| - 1], pos);
    }
  }

  lemma {:induction false} WithPosNone(s: seq<RecordInfo>, pos: int)
    requires forall i :: 0 <= i < |s| ==> s[i].keywordPos != pos
    ensures WithPos(s, pos) == []
    decreases |s|
  {
    if |s| > 0 {
      WithPosNone(s[..|s| - 1], pos);
    }
  }

  lemma WithPosSingle(r: RecordInfo, pos: int)
    ensures WithPos([r], pos) == (if r.keywordPos == pos then [r] else [])
  {
    assert [r][..0] == [];
  }

  lemma WithPosInsert(r: RecordInfo, s: seq<RecordInfo>, pos: int)
    ensures WithPos(InsertByPos(r, s), pos) == (if r.keywordPos == pos then [r] else []) + WithPos(s, pos)
  {
    var p := FirstAtLeastPos(s, r.keywordPos);
    var front, back := s[..p], s[p..];
    assert InsertByPos(r, s) == (front + [r]) + back;
    SplitAt(s, p);
    WithPosAppend(front + [r], back, pos);
    WithPosAppend(front, [r], pos);
    WithPosAppend(front, back, pos);
    WithPosSingle(r, pos);
    if r.keywordPos == pos {
      FrontWithoutPos(s, pos);
    }
    Regroup(WithPos(InsertByPos(r, s), pos), WithPos(front + [r], pos), WithPos(front, pos), WithPos([r], pos),
            WithPos(back, pos), WithPos(s, pos));
  }

  /** The bookkeeping of `WithPosInsert`: of the filtered front and the
      filtered record one is empty, so the record's part moves to the front. */
  lemma Regroup<T>(whole: seq<T>, frontAndMid: seq<T>, front: seq<T>, mid: seq<T>, back: seq<T>, original: seq<T>)
    requires whole == frontAndMid + back && frontAndMid == front + mid && original == front + back
    requires front == [] || mid == []
    ensures whole == mid + original
  {
  }

  /** The records before the insertion point all have a smaller position. */
  lemma FrontWithoutPos(s: seq<RecordInfo>, pos: int)
    ensures WithPos(s[..FirstAtLeastPos(s, pos)], pos) == []
  {
    var front := s[..FirstAtLeastPos(s, pos)];
    forall i | 0 <= i < |front| ensures front[i].keywordPos != pos {
      assert front[i] == s[i];
    }
    WithPosNone(front, pos);
  }

  lemma SplitAt<T>(s: seq<T>, p: nat)
    requires p <= |s|
    ensures s[..p] + s[p..] == s
  {
  }

  /** Records with equal keyword positions come out in the reverse of their
      input order, since each is put before the first one with a position at
      least its own. */
  lemma {:induction false} TiesReversed(list: seq<RecordInfo>, n: nat, pos: int)
    requires n <= |list|
    ensures WithPos(SortByPosUpTo(list, n), pos) == Reverse(WithPos(list[..n], pos))
    decreases n
  {
    if n > 0 {
      TiesReversed(list, n - 1, pos);
      WithPosInsert(list[n - 1], SortByPosUpTo(list, n - 1), pos);
      assert list[..n][..n - 1] == list[..n - 1];
      var w := WithPos(list[..n - 1], pos);
      if list[n - 1].keywordPos == pos {
        assert WithPos(list[..n], pos) == w + [list[n - 1]];
        assert (w + [list[n - 1]])[..|w|] == w;
      } else {
        assert WithPos(list[..n], pos) == w;
      }
    }
  }

  /** One pass of the outer loop: record `n` goes in at `idx` when every
      record before `idx` has a smaller position and the one at `idx`, if
      any, does not. */
  lemma SortStepAt(list: seq<RecordInfo>, n: nat, idx: nat)
    requires n < |list| && idx <= |SortByPosUpTo(list, n)|
    requires forall i :: 0 <= i < idx ==> SortByPosUpTo(list, n)[i].keywordPos < list[n].keywordPos
    requires idx < |SortByPosUpTo(list, n)| ==> list[n].keywordPos <= SortByPosUpTo(list, n)[idx].keywordPos
    ensures SortByPosUpTo(list, n + 1)
            == SortByPosUpTo(list, n)[..idx] + [list[n]] + SortByPosUpTo(list, n)[idx..]
  {
    FirstAtLeastPosIs(SortByPosUpTo(list, n), list[n].keywordPos, idx);
  }

  /** `SortBasedOnKeywordPos` */
  method SortBasedOnKeywordPos(listToBeSorted: seq<RecordInfo>) returns (sortedList: seq<RecordInfo>)
    ensures sortedList == SortByPos(listToBeSorted)
    ensures multiset(sortedList) == multiset(listToBeSorted)
    ensures SortedByPos(sortedList)
  {
    sortedList := [];
    for n := 0 to |listToBeSorted|
      invariant sortedList == SortByPosUpTo(listToBeSorted, n)
    {
      var recordInfo := listToBeSorted[n];
      var insertedFlag := false;
      var idx := 0;
      while idx < |sortedList|
        invariant 0 <= idx <= |sortedList|
        invariant forall i :: 0 <= i < idx ==> sortedList[i].keywordPos < recordInfo.keywordPos
        invariant !insertedFlag && sortedList == SortByPosUpTo(listToBeSorted, n)
      {
        if recordInfo.keywordPos <= sortedList[idx].keywordPos {
          SortStepAt(listToBeSorted, n, idx);
          sortedList := sortedList[..idx] + [recordInfo] + sortedList[idx..];
          insertedFlag := true;
          break;
        }
        idx := idx + 1;
      }
      if !insertedFlag {
        SortStepAt(listToBeSorted, n, |sortedList|);
        AppendIsSplice(sortedList, recordInfo);
        sortedList := sortedList + [recordInfo];
      }
    }
    SortByPosUpToContents(listToBeSorted, |listToBeSorted|);
    SortByPosUpToOrder(listToBeSorted, |listToBeSorted|);
    FullPrefix(listToBeSorted);
  }

  lemma AppendIsSplice<T>(s: seq<T>, r: T)
    ensures s[..|s|] + [r] + s[|s|..] == s + [r]
  {
  }

  lemma FullPrefix<T>(s: seq<T>)
    ensures s[..|s|] == s
  {
  }

  // ---------------------------------------------------------------------
  // AddToSortedList

  predicate SortedByStart(s: seq<RecordInfo>, now: int) {
    forall i, j :: 0 <= i < j < |s| ==> Start(s[i], now) <= Start(s[j], now)
  }

  /** The first position whose start is strictly later than `t`, or `|s|`. */
  function FirstLater(s: seq<RecordInfo>, t: int, now: int): (p: nat)
    ensures p <= |s|
    ensures forall i :: 0 <= i < p ==> Start(s[i], now) <= t
    ensures p < |s| ==> t < Start(s[p], now)
  {
    if |s| == 0 || t < Start(s[0], now) then 0 else 1 + FirstLater(s[1..], t, now)
  }

  lemma {:induction false} FirstLaterIs(s: seq<RecordInfo>, t: int, now: int, p: nat)
    requires p <= |s|
    requires forall i :: 0 <= i < p ==> Start(s[i], now) <= t
    requires p < |s| ==> t < Start(s[p], now)
    ensures FirstLater(s, t, now) == p
    decreases p
  {
    if p > 0 {
      FirstLaterIs(s[1..], t, now, p - 1);
    }
  }

  /** `r` placed just before the first record that starts strictly later,
      that is after every record starting at the same time. */
  function InsertByStart(r: RecordInfo, s: seq<RecordInfo>, now: int): seq<RecordInfo> {
    var p := FirstLater(s, Start(r, now), now);
    s[..p] + [r] + s[p..]
  }

  /** `AddToSortedList` adds exactly `r`. */
  lemma InsertByStartContents(r: RecordInfo, s: seq<RecordInfo>, now: int)
    ensures |InsertByStart(r, s, now)| == |s| + 1
    ensures multiset(InsertByStart(r, s, now)) == multiset(s) + multiset{r}
  {
    var p := FirstLater(s, Start(r, now), now);
    assert s == s[..p] + s[p..];
  }

  /** `AddToSortedList` keeps a start-sorted list sorted. */
  lemma InsertByStartOrder(r: RecordInfo, s: seq<RecordInfo>, now: int)
    requires SortedByStart(s, now)
    ensures SortedByStart(InsertByStart(r, s, now), now)
  {
    var p := FirstLater(s, Start(r, now), now);
    var t := s[..p] + [r] + s[p..];
    forall i, j | 0 <= i < j < |t| ensures Start(t[i], now) <= Start(t[j], now) {
      SpliceIndex(s, r, p, i);
      SpliceIndex(s, r, p, j);
      if i == p && p < j - 1 {
        assert Start(s[p], now) <= Start(s[j - 1], now);
      }
    }
  }

  /** `AddToSortedList`: a new list; `origList` itself is left as it was. */
  method AddToSortedList(recordInfoToAdd: RecordInfo, origList: seq<RecordInfo>, now: int)
    returns (newList: seq<RecordInfo>)
    ensures newList == InsertByStart(recordInfoToAdd, origList, now)
    ensures multiset(newList) == multiset(origList) + multiset{recordInfoToAdd}
    ensures SortedByStart(origList, now) ==> SortedByStart(newList, now)
  {
    InsertByStartContents(recordInfoToAdd, origList, now);
    if SortedByStart(origList, now) {
      InsertByStartOrder(recordInfoToAdd, origList, now);
    }
    newList := origList;
    for idx := 0 to |origList|
      invariant forall i :: 0 <= i < idx ==> Start(origList[i], now) <= Start(recordInfoToAdd, now)
    {
      if Start(recordInfoToAdd, now) < Start(origList[idx], now) {
        FirstLaterIs(origList, Start(recordInfoToAdd, now), now, idx);
        newList := newList[..idx] + [recordInfoToAdd] + newList[idx..];
        return;
      }
    }
    FirstLaterIs(origList, Start(recordInfoToAdd, now), now, |origList|);
    newList := newList + [recordInfoToAdd];
  }

  // ---------------------------------------------------------------------
  // IsConcurrencyOk

  /** The end times of `s` still running after time `t` (end strictly later). */
  function Keep(s: seq<int>, t: int): (k: seq<int>)
    ensures forall e :: e in k ==> e > t
    ensures |k| <= |s|
    decreases |s|
  {
    if |s| == 0 then []
    else Keep(s[..|s| - 1], t) + (if s[|s| - 1] > t then [s[|s| - 1]] else [])
  }

  function Ends(s: seq<RecordInfo>, now: int): (ends: seq<int>)
    ensures |ends| == |s|
    ensures forall i :: 0 <= i < |s| ==> ends[i] == End(s[i], now)
  {
    seq(|s|, i requires 0 <= i < |s| => End(s[i], now))
  }

  /** The end-time stack after the first `n` records: the ends not passed by
      the next start are kept, then the next end is pushed. */
  function StackAfter(list: seq<RecordInfo>, n: nat, now: int): seq<int>
    requires n <= |list|
    decreases n
  {
    if n == 0 then []
    else Keep(StackAfter(list, n - 1, now), Start(list[n - 1], now)) + [End(list[n - 1], now)]
  }

  /** No stack among the first `n` ever held more than `maxConcurrent` ends. */
  function ConcurrencyOkUpTo(list: seq<RecordInfo>, n: nat, maxConcurrent: int, now: int): bool
    requires n <= |list|
    decreases n
  {
    n == 0 || (ConcurrencyOkUpTo(list, n - 1, maxConcurrent, now) && |StackAfter(list, n, now)| <= maxConcurrent)
  }

  function ConcurrencyOk(list: seq<RecordInfo>, maxConcurrent: int, now: int): bool {
    ConcurrencyOkUpTo(list, |list|, maxConcurrent, now)
  }

  /** `endTimeStack.Remove(v)`: drops the first occurrence of `v`, if any. */
  function RemoveFirst(s: seq<int>, v: int): (r: seq<int>)
    ensures v !in s ==> r == s
    ensures v in s ==> |r| == |s| - 1
    decreases |s|
  {
    if |s| == 0 then s
    else if s[0] == v then s[1..]
    else [s[0]] + RemoveFirst(s[1..], v)
  }

  lemma {:induction false} RemoveFirstAfter(a: seq<int>, v: int, b: seq<int>)
    requires v !in a
    ensures RemoveFirst(a + [v] + b, v) == a + b
    decreases |a|
  {
    if |a| == 0 {
      assert a + [v] + b == [v] + b;
    } else {
      assert (a + [v] + b)[1..] == a[1..] + [v] + b;
      RemoveFirstAfter(a[1..], v, b);
      assert a + b == [a[0]] + (a[1..] + b);
    }
  }

  /** The inner loop of the check, one snapshot element at a time: when the
      element has ended by `t`, removing its first occurrence removes that
      very element, since every end kept before it is later than `t`. */
  lemma InnerStep(snapshot: seq<int>, i: nat, t: int)
    requires i < |snapshot|
    ensures var stack := Keep(snapshot[..i], t) + snapshot[i..];
            Keep(snapshot[..i + 1], t) + snapshot[i + 1..]
              == if t >= snapshot[i] then RemoveFirst(stack, snapshot[i]) else stack
  {
    var k := Keep(snapshot[..i], t);
    var v := snapshot[i];
    var rest := snapshot[i + 1..];
    assert snapshot[..i + 1][..i] == snapshot[..i];
    assert Keep(snapshot[..i + 1], t) == k + (if v > t then [v] else []);
    assert snapshot[i..] == [v] + rest;
    assert k + snapshot[i..] == k + [v] + rest;
    if t >= v {
      assert v !in k;
      RemoveFirstAfter(k, v, rest);
      assert Keep(snapshot[..i + 1], t) == k;
    } else {
      assert Keep(snapshot[..i + 1], t) == k + [v];
    }
  }

  /** `IsConcurrencyOk`. `recordingToAdd` is a parameter of the code that is
      never read: the answer is about `recordingList` alone. */
  method IsConcurrencyOk(recordingToAdd: RecordInfo, recordingList: seq<RecordInfo>, maxConcurrent: int, now: int)
    returns (okToAddFlag: bool)
    ensures okToAddFlag == ConcurrencyOk(recordingList, maxConcurrent, now)
  {
    okToAddFlag := true;
    var endTimeStack: seq<int> := [];
    var concurrent := 0;
    for idx := 0 to |recordingList|
      invariant endTimeStack == StackAfter(recordingList, idx, now)
      invariant concurrent == |endTimeStack|
      invariant okToAddFlag == ConcurrencyOkUpTo(recordingList, idx, maxConcurrent, now)
    {
      concurrent := concurrent + 1;
      var start := Start(recordingList[idx], now);
      var endTimeArray := endTimeStack;
      assert endTimeArray[..0] == [] && endTimeArray[0..] == endTimeArray;
      for i := 0 to |endTimeArray|
        invariant endTimeStack == Keep(endTimeArray[..i], start) + endTimeArray[i..]
        invariant concurrent == |endTimeStack| + 1
      {
        InnerStep(endTimeArray, i, start);
        if start >= endTimeArray[i] {
          concurrent := concurrent - 1;
          endTimeStack := RemoveFirst(endTimeStack, endTimeArray[i]);
        }
      }
      assert endTimeArray[..|endTimeArray|] == endTimeArray;
      assert endTimeStack == Keep(endTimeArray, start);
      endTimeStack := endTimeStack + [End(recordingList[idx], now)];
      assert endTimeStack == StackAfter(recordingList, idx + 1, now);
      if concurrent > maxConcurrent {
        okToAddFlag := false;
      }
    }
  }

  lemma {:induction false} KeepAppend(a: seq<int>, b: seq<int>, t: int)
    ensures Keep(a + b, t) == Keep(a, t) + Keep(b, t)
    decreases |b|
  {
    if |b| == 0 {
      assert a + b == a;
    } else {
      assert (a + b)[..|a + b| - 1] == a + b[..|b| - 1];
      KeepAppend(a, b[..|b| - 1], t);
    }
  }

  lemma {:induction false} KeepKeep(s: seq<int>, a: int, b: int)
    requires a <= b
    ensures Keep(Keep(s, a), b) == Keep(s, b)
    decreases |s|
  {
    if |s| > 0 {
      var front := s[..|s| - 1];
      var last := s[|s| - 1];
      KeepKeep(front, a, b);
      var tail := if last > a then [last] else [];
      KeepAppend(Keep(front, a), tail, b);
      if last > a {
        assert Keep(tail, b) == Keep([], b) + (if last > b then [last] else []) by {
          assert tail[..0] == [];
        }
      }
    }
  }

  /** The stack after `n` records, filtered at `t`, is the filtered ends. */
  predicate LiveEndsAt(list: seq<RecordInfo>, n: nat, t: int, now: int)
    requires n <= |list|
  {
    Keep(StackAfter(list, n, now), t) == Keep(Ends(list[..n], now), t)
  }

  lemma EndsSnoc(list: seq<RecordInfo>, n: nat, now: int)
    requires n < |list|
    ensures Ends(list[..n + 1], now) == Ends(list[..n], now) + [End(list[n], now)]
  {
    var a := Ends(list[..n + 1], now);
    var b := Ends(list[..n], now) + [End(list[n], now)];
    forall i | 0 <= i < |a| ensures a[i] == b[i] {
      if i < n {
        assert list[..n + 1][i] == list[..n][i];
      }
    }
  }

  lemma LiveEndsStep(list: seq<RecordInfo>, n: nat, t: int, now: int)
    requires n < |list| && Start(list[n], now) <= t
    requires LiveEndsAt(list, n, t, now)
    ensures LiveEndsAt(list, n + 1, t, now)
  {
    var s := Start(list[n], now);
    var prev := StackAfter(list, n, now);
    var e := End(list[n], now);
    assert StackAfter(list, n + 1, now) == Keep(prev, s) + [e];
    KeepAppend(Keep(prev, s), [e], t);
    KeepKeep(prev, s, t);
    EndsSnoc(list, n, now);
    KeepAppend(Ends(list[..n], now), [e], t);
  }

  /** On a start-sorted list the stack, filtered at any time `t` not before
      the starts seen so far, holds exactly the ends after `t`. */
  lemma StackIsLiveEnds(list: seq<RecordInfo>, n: nat, t: int, now: int)
    requires n <= |list| && SortedByStart(list, now)
    requires n > 0 ==> Start(list[n - 1], now) <= t
    ensures Keep(StackAfter(list, n, now), t) == Keep(Ends(list[..n], now), t)
  {
    assert LiveEndsAt(list, 0, t, now) by {
      assert list[..0] == [];
    }
    for k := 0 to n
      invariant LiveEndsAt(list, k, t, now)
    {
      assert Start(list[k], now) <= Start(list[n - 1], now);
      LiveEndsStep(list, k, t, now);
    }
  }

  /** On a start-sorted list, the count the check compares for record `k` is
      one for the record itself plus the earlier records whose end is after
      its start. */
  lemma SortedStackCount(list: seq<RecordInfo>, k: nat, now: int)
    requires k < |list| && SortedByStart(list, now)
    ensures |StackAfter(list, k + 1, now)| == 1 + |Keep(Ends(list[..k], now), Start(list[k], now))|
  {
    if k > 0 {
      assert Start(list[k - 1], now) <= Start(list[k], now);
    }
    StackIsLiveEnds(list, k, Start(list[k], now), now);
  }

  /** Record `k` fits: with the earlier records still running at its start
      it stays within the ceiling. */
  predicate Fits(list: seq<RecordInfo>, k: nat, maxConcurrent: int, now: int)
    requires k < |list|
  {
    1 + |Keep(Ends(list[..k], now), Start(list[k], now))| <= maxConcurrent
  }

  /** On a start-sorted list the check fails exactly when some record, with
      the earlier records still running at its start, exceeds the ceiling. */
  lemma {:induction false} ConcurrencyOkIff(list: seq<RecordInfo>, n: nat, maxConcurrent: int, now: int)
    requires n <= |list| && SortedByStart(list, now)
    ensures ConcurrencyOkUpTo(list, n, maxConcurrent, now) <==>
              forall k :: 0 <= k < n ==> Fits(list, k, maxConcurrent, now)
    decreases n
  {
    if n > 0 {
      ConcurrencyOkIff(list, n - 1, maxConcurrent, now);
      ConcurrencyOkStep(list, n, maxConcurrent, now);
      if ConcurrencyOkUpTo(list, n, maxConcurrent, now) {
        forall k | 0 <= k < n ensures Fits(list, k, maxConcurrent, now) {
        }
      }
    }
  }

  /** One more record: the check over `n` records is the check over `n - 1`
      and the fit of record `n - 1`. */
  lemma ConcurrencyOkStep(list: seq<RecordInfo>, n: nat, maxConcurrent: int, now: int)
    requires 0 < n <= |list| && SortedByStart(list, now)
    ensures ConcurrencyOkUpTo(list, n, maxConcurrent, now)
            == (ConcurrencyOkUpTo(list, n - 1, maxConcurrent, now) && Fits(list, n - 1, maxConcurrent, now))
  {
    SortedStackCount(list, n - 1, now);
  }

  // ---------------------------------------------------------------------
  // GetShowsToQueue

  /** Not finished (its end is not before `now`) and not too far away (its
      start is at most `hoursInFuture` hours ahead). */
  predicate Live(r: RecordInfo, now: int, hoursInFuture: int) {
    !(End(r, now) < now) && !(Start(r, now) > now + 60 * hoursInFuture)
  }

  /** A record is queued when it is live and the queue built so far passes
      the concurrency check; the record itself is not part of that check. */
  predicate Admit(r: RecordInfo, queue: seq<RecordInfo>, now: int, hoursInFuture: int, maxConcurrent: int) {
    Live(r, now, hoursInFuture) && ConcurrencyOk(queue, maxConcurrent, now)
  }

  /** The queue after the first `n` records of the keyword-sorted list. */
  function QueueUpTo(sorted: seq<RecordInfo>, n: nat, now: int, hoursInFuture: int, maxConcurrent: int): seq<RecordInfo>
    requires n <= |sorted|
    decreases n
  {
    if n == 0 then []
    else
      var queue := QueueUpTo(sorted, n - 1, now, hoursInFuture, maxConcurrent);
      if Admit(sorted[n - 1], queue, now, hoursInFuture, maxConcurrent)
      then InsertByStart(sorted[n - 1], queue, now)
      else queue
  }

  /** The list `GetShowsToQueue` returns for the filed records. */
  function ShowsToQueue(recordDict: Dict<string, RecordInfo>, now: int, hoursInFuture: int, maxConcurrent: int): seq<RecordInfo>
    requires recordDict.Valid()
  {
    var sorted := SortByPos(recordDict.Values());
    QueueUpTo(sorted, |sorted|, now, hoursInFuture, maxConcurrent)
  }

  predicate AllLive(queue: seq<RecordInfo>, now: int, hoursInFuture: int) {
    forall i :: 0 <= i < |queue| ==> Live(queue[i], now, hoursInFuture)
  }

  /** Whether a record was already handed to a capture plays no part in
      queueing: admission is the same with the flag set or clear, and a live
      record that is already being captured still heads an empty queue. */
  lemma SpawnedFlagIgnored(r: RecordInfo, queue: seq<RecordInfo>, now: int, hoursInFuture: int, maxConcurrent: int, flag: bool)
    ensures Admit(r.(processSpawnedFlag := flag), queue, now, hoursInFuture, maxConcurrent)
            == Admit(r, queue, now, hoursInFuture, maxConcurrent)
    ensures var spawned := r.(processSpawnedFlag := true);
            Live(r, now, hoursInFuture) ==> QueueUpTo([spawned], 1, now, hoursInFuture, maxConcurrent) == [spawned]
  {
  }

  /** Inserting a live record into a queue of live records. */
  lemma InsertByStartLive(r: RecordInfo, queue: seq<RecordInfo>, now: int, hoursInFuture: int)
    requires AllLive(queue, now, hoursInFuture) && Live(r, now, hoursInFuture)
    ensures AllLive(InsertByStart(r, queue, now), now, hoursInFuture)
  {
    var p := FirstLater(queue, Start(r, now), now);
    var t := queue[..p] + [r] + queue[p..];
    forall i | 0 <= i < |t| ensures Live(t[i], now, hoursInFuture) {
      if i < p {
        assert t[i] == queue[i];
      } else if i > p {
        assert t[i] == queue[i - 1];
      }
    }
  }

  /** One record of the sorted list adds at most itself to the queue. */
  lemma QueueStepContents(sorted: seq<RecordInfo>, n: nat, now: int, hoursInFuture: int, maxConcurrent: int)
    requires 0 < n <= |sorted|
    requires AllLive(QueueUpTo(sorted, n - 1, now, hoursInFuture, maxConcurrent), now, hoursInFuture)
    ensures multiset(QueueUpTo(sorted, n, now, hoursInFuture, maxConcurrent))
            <= multiset(QueueUpTo(sorted, n - 1, now, hoursInFuture, maxConcurrent)) + multiset{sorted[n - 1]}
    ensures AllLive(QueueUpTo(sorted, n, now, hoursInFuture, maxConcurrent), now, hoursInFuture)
  {
    var queue := QueueUpTo(sorted, n - 1, now, hoursInFuture, maxConcurrent);
    var r := sorted[n - 1];
    if Admit(r, queue, now, hoursInFuture, maxConcurrent) {
      InsertByStartContents(r, queue, now);
      InsertByStartLive(r, queue, now, hoursInFuture);
    }
  }

  /** The queue holds only live records, each taken from the sorted list. */
  lemma {:induction false} QueueContents(sorted: seq<RecordInfo>, n: nat, now: int, hoursInFuture: int, maxConcurrent: int)
    requires n <= |sorted|
    ensures multiset(QueueUpTo(sorted, n, now, hoursInFuture, maxConcurrent)) <= multiset(sorted[..n])
    ensures AllLive(QueueUpTo(sorted, n, now, hoursInFuture, maxConcurrent), now, hoursInFuture)
    decreases n
  {
    if n > 0 {
      QueueContents(sorted, n - 1, now, hoursInFuture, maxConcurrent);
      QueueStepContents(sorted, n, now, hoursInFuture, maxConcurrent);
      PrefixMultisetSnoc(sorted, n);
    }
  }

  /** The queue is ordered by start time. */
  lemma {:induction false} QueueOrder(sorted: seq<RecordInfo>, n: nat, now: int, hoursInFuture: int, maxConcurrent: int)
    requires n <= |sorted|
    ensures SortedByStart(QueueUpTo(sorted, n, now, hoursInFuture, maxConcurrent), now)
    decreases n
  {
    if n > 0 {
      QueueOrder(sorted, n - 1, now, hoursInFuture, maxConcurrent);
      InsertByStartOrder(sorted[n - 1], QueueUpTo(sorted, n - 1, now, hoursInFuture, maxConcurrent), now);
    }
  }

  /** Once the queue fails the concurrency check nothing more is queued. */
  lemma {:induction false} QueueFrozenOnceOver(sorted: seq<RecordInfo>, m: nat, n: nat, now: int, hoursInFuture: int, maxConcurrent: int)
    requires m <= n <= |sorted|
    requires !ConcurrencyOk(QueueUpTo(sorted, m, now, hoursInFuture, maxConcurrent), maxConcurrent, now)
    ensures QueueUpTo(sorted, n, now, hoursInFuture, maxConcurrent) == QueueUpTo(sorted, m, now, hoursInFuture, maxConcurrent)
    decreases n
  {
    if m < n {
      QueueFrozenOnceOver(sorted, m, n - 1, now, hoursInFuture, maxConcurrent);
    }
  }

  /** The queue after `n` records was built from the queue after `m` by
      adding `sorted[m]`, and that earlier queue passed the check. */
  predicate LastAddedTo(sorted: seq<RecordInfo>, n: nat, m: nat, now: int, hoursInFuture: int, maxConcurrent: int)
    requires m < n <= |sorted|
  {
    var before := QueueUpTo(sorted, m, now, hoursInFuture, maxConcurrent);
    ConcurrencyOk(before, maxConcurrent, now)
    && QueueUpTo(sorted, n, now, hoursInFuture, maxConcurrent) == InsertByStart(sorted[m], before, now)
  }

  /** The queue passes the concurrency check, or it passed it just before
      its last addition and has not changed since: since the candidate is
      left out of its own check, the ceiling can be overshot by one record. */
  lemma {:induction false} OvershootAtMostOne(sorted: seq<RecordInfo>, n: nat, now: int, hoursInFuture: int, maxConcurrent: int)
    requires n <= |sorted|
    ensures ConcurrencyOk(QueueUpTo(sorted, n, now, hoursInFuture, maxConcurrent), maxConcurrent, now) ||
            exists m :: 0 <= m < n && LastAddedTo(sorted, n, m, now, hoursInFuture, maxConcurrent)
    decreases n
  {
    if n > 0 {
      var prev := QueueUpTo(sorted, n - 1, now, hoursInFuture, maxConcurrent);
      if Admit(sorted[n - 1], prev, now, hoursInFuture, maxConcurrent) {
        assert LastAddedTo(sorted, n, n - 1, now, hoursInFuture, maxConcurrent);
      } else {
        assert QueueUpTo(sorted, n, now, hoursInFuture, maxConcurrent) == prev;
        OvershootAtMostOne(sorted, n - 1, now, hoursInFuture, maxConcurrent);
        if !ConcurrencyOk(prev, maxConcurrent, now) {
          var m :| 0 <= m < n - 1 && LastAddedTo(sorted, n - 1, m, now, hoursInFuture, maxConcurrent);
          assert LastAddedTo(sorted, n, m, now, hoursInFuture, maxConcurrent);
        }
      }
    }
  }

  /** With one capture allowed, two live shows that overlap are both queued:
      the queue of the first passes the check, so the second is admitted. */
  lemma OvershootExample(a: RecordInfo, b: RecordInfo, now: int, hoursInFuture: int)
    requires Live(a, now, hoursInFuture) && Live(b, now, hoursInFuture)
    requires Start(a, now) <= Start(b, now) < End(a, now)
    ensures QueueUpTo([a, b], 2, now, hoursInFuture, 1) == [a, b]
    ensures !ConcurrencyOk([a, b], 1, now)
  {
    var q1 := QueueUpTo([a, b], 1, now, hoursInFuture, 1);
    assert q1 == [a] by {
      assert QueueUpTo([a, b], 0, now, hoursInFuture, 1) == [];
      assert ConcurrencyOk([], 1, now);
      assert FirstLater([], Start(a, now), now) == 0;
    }
    assert StackAfter([a], 1, now) == [End(a, now)] by {
      assert StackAfter([a], 0, now) == [];
      assert Keep([], Start(a, now)) == [];
    }
    assert ConcurrencyOk([a], 1, now) by {
      assert ConcurrencyOkUpTo([a], 0, 1, now);
    }
    assert FirstLater([a], Start(b, now), now) == 1 by {
      assert FirstLater([a][1..], Start(b, now), now) == 0;
    }
    assert InsertByStart(b, [a], now) == [a, b];
    assert |StackAfter([a, b], 2, now)| == 2 by {
      assert StackAfter([a, b], 1, now) == [End(a, now)] by {
        assert StackAfter([a, b], 0, now) == [];
        assert Keep([], Start(a, now)) == [];
      }
      assert Keep([End(a, now)], Start(b, now)) == [End(a, now)] by {
        assert [End(a, now)][..0] == [];
        assert Keep([], Start(b, now)) == [];
      }
    }
  }

  // GetShowsToQueue as written: `recordingList.RemoveAt(idx)` on a list that
  // shrinks with every finished show while `idx` walks the unshrunk copy.

  predicate Done(r: RecordInfo, now: int) { End(r, now) < now }

  function DoneCount(s: seq<RecordInfo>, now: int): (c: nat)
    ensures c <= |s|
    decreases |s|
  {
    if |s| == 0 then 0 else DoneCount(s[..|s| - 1], now) + (if Done(s[|s| - 1], now) then 1 else 0)
  }

  /** The index whose `RemoveAt` throws, given `removed` earlier removals. */
  function RemovalFailure(sorted: seq<RecordInfo>, idx: nat, removed: nat, now: int): Option<nat>
    requires idx <= |sorted|
    decreases |sorted| - idx
  {
    if idx == |sorted| then None
    else if !Done(sorted[idx], now) then RemovalFailure(sorted, idx + 1, removed, now)
    else if idx >= |sorted| - removed then Some(idx)
    else RemovalFailure(sorted, idx + 1, removed + 1, now)
  }

  /** The pass throws exactly when some finished record sits at an index at
      or past the length the list has shrunk to by then. */
  lemma {:induction false} RemovalFailureIff(sorted: seq<RecordInfo>, idx: nat, now: int)
    requires idx <= |sorted|
    ensures RemovalFailure(sorted, idx, DoneCount(sorted[..idx], now), now).Some? <==>
              exists j :: idx <= j < |sorted| && Done(sorted[j], now) && j + DoneCount(sorted[..j], now) >= |sorted|
    decreases |sorted| - idx
  {
    if idx < |sorted| {
      RemovalStep(sorted, idx, now);
      RemovalFailureIff(sorted, idx + 1, now);
    }
  }

  /** Two finished shows are enough: the second removal is at index 1 of a
      list of one. */
  lemma TwoFinishedShowsFail(values: seq<RecordInfo>, now: int)
    requires |values| == 2 && Done(values[0], now) && Done(values[1], now)
    ensures RemovalFailure(SortByPos(values), 0, 0, now) == Some(1)
  {
    var sorted := SortByPos(values);
    SortByPosUpToContents(values, 2);
    assert values[..2] == values;
    assert multiset(sorted) == multiset(values);
    assert |sorted| == 2 by {
      assert |multiset(sorted)| == |sorted|;
    }
    forall i | 0 <= i < 2 ensures Done(sorted[i], now) {
      assert sorted[i] in multiset(values);
    }
  }

  /** One step of the as-written pass over index `idx`. */
  lemma RemovalStep(sorted: seq<RecordInfo>, idx: nat, now: int)
    requires idx < |sorted|
    ensures var removed := DoneCount(sorted[..idx], now);
            && DoneCount(sorted[..idx + 1], now) == removed + (if Done(sorted[idx], now) then 1 else 0)
            && RemovalFailure(sorted, idx, removed, now)
               == if Done(sorted[idx], now) && idx >= |sorted| - removed then Some(idx)
                  else RemovalFailure(sorted, idx + 1, DoneCount(sorted[..idx + 1], now), now)
  {
    assert sorted[..idx + 1][..idx] == sorted[..idx];
  }

  /** One step of the queueing pass over index `idx`. */
  lemma QueueStep(sorted: seq<RecordInfo>, idx: nat, now: int, hoursInFuture: int, maxConcurrent: int)
    requires idx < |sorted|
    ensures var queue := QueueUpTo(sorted, idx, now, hoursInFuture, maxConcurrent);
            QueueUpTo(sorted, idx + 1, now, hoursInFuture, maxConcurrent)
              == if Live(sorted[idx], now, hoursInFuture) && ConcurrencyOk(queue, maxConcurrent, now)
                 then InsertByStart(sorted[idx], queue, now) else queue
  {
  }

  datatype QueueOutcome = Queued(queue: seq<RecordInfo>) | IndexOutOfRange(index: nat)

  /** `GetShowsToQueue` as written, over the records in dictionary order:
      it throws at the first failing `RemoveAt`, and otherwise returns the
      same queue as the pass without the removal. */
  method ShowsToQueueAsWritten(values: seq<RecordInfo>, now: int, hoursInFuture: int, maxConcurrent: int)
    returns (outcome: QueueOutcome)
    ensures var sorted := SortByPos(values);
            var failure := RemovalFailure(sorted, 0, 0, now);
            && (failure.None? ==> outcome == Queued(QueueUpTo(sorted, |sorted|, now, hoursInFuture, maxConcurrent)))
            && (failure.Some? ==> outcome == IndexOutOfRange(failure.value))
  {
    var queuedRecordings: seq<RecordInfo> := [];
    var recordingList := SortBasedOnKeywordPos(values);
    var recordingListArray := recordingList;
    for idx := 0 to |recordingListArray|
      invariant |recordingList| == |recordingListArray| - DoneCount(recordingListArray[..idx], now)
      invariant queuedRecordings == QueueUpTo(recordingListArray, idx, now, hoursInFuture, maxConcurrent)
      invariant RemovalFailure(recordingListArray, 0, 0, now)
                == RemovalFailure(recordingListArray, idx, DoneCount(recordingListArray[..idx], now), now)
    {
      var recordInfo := recordingListArray[idx];
      RemovalStep(recordingListArray, idx, now);
      QueueStep(recordingListArray, idx, now, hoursInFuture, maxConcurrent);
      var showAlreadyDone := End(recordInfo, now) < now;
      var showTooFarAway := Start(recordInfo, now) > now + 60 * hoursInFuture;
      var concurrencyOk := IsConcurrencyOk(recordInfo, queuedRecordings, maxConcurrent, now);
      if showAlreadyDone {
        if idx >= |recordingList| {
          return IndexOutOfRange(idx);
        }
        recordingList := recordingList[..idx] + recordingList[idx + 1..];
      }
      if !showAlreadyDone && !showTooFarAway && concurrencyOk {
        queuedRecordings := AddToSortedList(recordInfo, queuedRecordings, now);
      }
    }
    assert recordingListArray[..|recordingListArray|] == recordingListArray;
    outcome := Queued(queuedRecordings);
  }

  // ---------------------------------------------------------------------
  // BuildRecordSchedule

  /** The fields of a listed show that the schedule builder reads; times are
      given with their text and parsed minutes. */
  datatype ScheduleShow = ScheduleShow(
    category: string,
    channel: string,
    end_time: Parsed,
    id: string,
    language: string,
    name: string,
    quality: string,
    runtime: Parsed,
    time: Parsed)

  /** The key a show is filed under: its name followed by its start text. */
  function ScheduleKey(show: ScheduleShow): string {
    show.name + show.time.text
  }

  /** The characters removed from file names besides the platform's own. */
  const MyChars: string := "|'/\\ ,<>#@!+&^*()~`;"

  /** `s.Replace(c, "")` for each `c` of `cs` in turn. */
  function RemoveChars(s: string, cs: string): string
    decreases |cs|
  {
    if |cs| == 0 then s else ReplaceAll(RemoveChars(s, cs[..|cs| - 1]), [cs[|cs| - 1]], "")
  }

  lemma {:induction false} RemoveCharsSpec(s: string, cs: string, x: char)
    ensures x in RemoveChars(s, cs) <==> x in s && x !in cs
    decreases |cs|
  {
    if |cs| > 0 {
      var front := cs[..|cs| - 1];
      RemoveCharsSpec(s, front, x);
      RemoveCharSpec(RemoveChars(s, front), cs[|cs| - 1], x);
      assert cs == front + [cs[|cs| - 1]];
    }
  }

  /** The file name made from a show name: spaces become underscores, then
      every character of `MyChars` and of the platform's invalid set goes. */
  function SanitizedName(name: string, platformInvalidChars: string): string {
    RemoveChars(ReplaceChar(name, ' ', '_'), MyChars + platformInvalidChars)
  }

  /** A character is in the file name exactly when it is in the name with
      spaces turned to underscores and is not an invalid character. */
  lemma SanitizedNameSpec(name: string, platformInvalidChars: string, x: char)
    ensures x in SanitizedName(name, platformInvalidChars) <==>
              x in ReplaceChar(name, ' ', '_') && x !in MyChars && x !in platformInvalidChars
  {
    RemoveCharsSpec(ReplaceChar(name, ' ', '_'), MyChars + platformInvalidChars, x);
  }

  /** Spaces and slashes never reach a file name, and underscores survive
      unless the platform forbids them. */
  lemma SanitizedNameClean(name: string, platformInvalidChars: string)
    ensures ' ' !in SanitizedName(name, platformInvalidChars)
    ensures '/' !in SanitizedName(name, platformInvalidChars)
    ensures ' ' in name && '_' !in platformInvalidChars ==> '_' in SanitizedName(name, platformInvalidChars)
  {
    SanitizedNameSpec(name, platformInvalidChars, ' ');
    SanitizedNameSpec(name, platformInvalidChars, '/');
    SanitizedNameSpec(name, platformInvalidChars, '_');
    assert ' ' in MyChars && '/' in MyChars;
    if ' ' in name {
      var i :| 0 <= i < |name| && name[i] == ' ';
      assert ReplaceChar(name, ' ', '_')[i] == '_';
    }
  }

  /** The file-name loop of `BuildRecordSchedule`. */
  method SanitizeFileName(name: string, platformInvalidChars: string) returns (fileName: string)
    ensures fileName == SanitizedName(name, platformInvalidChars)
    ensures forall c :: c in MyChars + platformInvalidChars ==> c !in fileName
  {
    fileName := ReplaceChar(name, ' ', '_');
    var invalidChars := MyChars + platformInvalidChars;
    for k := 0 to |invalidChars|
      invariant fileName == RemoveChars(ReplaceChar(name, ' ', '_'), invalidChars[..k])
    {
      assert invalidChars[..k + 1][..k] == invalidChars[..k];
      fileName := ReplaceAll(fileName, [invalidChars[k]], "");
    }
    assert invalidChars[..|invalidChars|] == invalidChars;
    forall c | c in invalidChars ensures c !in fileName {
      RemoveCharsSpec(ReplaceChar(name, ' ', '_'), invalidChars, c);
    }
  }

  /** Every filed record's channel list is a well-formed dictionary. */
  predicate ChannelsValid(recordDict: Dict<string, RecordInfo>) {
    forall k :: k in recordDict.entries ==> recordDict.entries[k].channels.Valid()
  }

  /** Every record is filed under its own description and start text. */
  predicate KeysMatch(recordDict: Dict<string, RecordInfo>) {
    forall k :: k in recordDict.entries ==> RecordKey(recordDict.entries[k]) == k
  }

  /** `GetRecordInfo` on the dictionary `recordDict`. */
  function FiledOrNew(recordDict: Dict<string, RecordInfo>, key: string, nowTicks: nat): RecordInfo {
    if key in recordDict.entries then recordDict.entries[key] else NewRecordInfo(nowTicks)
  }

  /** The record after the show's fields are copied into it. */
  function Fill(recordInfo: RecordInfo, show: ScheduleShow, keywordInfo: KeywordInfo, keywordPos: int,
                schedTimeOffset: Parsed, fileName: string): RecordInfo
  {
    recordInfo.(
      channels := AddUpdate(recordInfo.channels, show.channel, BuildChannelInfo(show.channel, show.quality, show.language)),
      id := show.id,
      description := show.name,
      strStartDT := Some(show.time),
      strEndDT := Some(show.end_time),
      strDuration := Some(show.runtime),
      strDTOffset := schedTimeOffset,
      preMinutes := keywordInfo.preMinutes,
      postMinutes := keywordInfo.postMinutes,
      qualityPref := keywordInfo.qualityPref,
      langPref := keywordInfo.langPref,
      category := show.category,
      keywordPos := keywordPos,
      fileName := fileName)
  }

  /** A filled record carries the show's key, its channel on top of the
      channels it had, the rule's rolls and the show's times, and keeps its
      flags. */
  lemma FillSpec(recordInfo: RecordInfo, show: ScheduleShow, keywordInfo: KeywordInfo, keywordPos: int,
                 schedTimeOffset: Parsed, fileName: string)
    ensures var filled := Fill(recordInfo, show, keywordInfo, keywordPos, schedTimeOffset, fileName);
            && RecordKey(filled) == ScheduleKey(show)
            && (recordInfo.channels.Valid() ==> filled.channels.Valid())
            && filled.channels.entries.Keys == recordInfo.channels.entries.Keys + {PadChannel(show.channel)}
            && GetDuration(filled) == show.runtime.value + keywordInfo.preMinutes + keywordInfo.postMinutes
            && GetStartDT(filled, 0) == show.time.value - keywordInfo.preMinutes + 60 * schedTimeOffset.value
            && GetEndDT(filled, 0) == show.end_time.value + 60 * schedTimeOffset.value
            && filled.processSpawnedFlag == recordInfo.processSpawnedFlag
            && filled.starredFlag == recordInfo.starredFlag && filled.emailFlag == recordInfo.emailFlag
  {
  }

  /** One matched show filed: the record under its key (or a fresh one) is
      filled from the show and stored back under that key. */
  function FileShow(recordDict: Dict<string, RecordInfo>, show: ScheduleShow, found: (KeywordInfo, int),
                    schedTimeOffset: Parsed, platformInvalidChars: string, nowTicks: nat): Dict<string, RecordInfo>
  {
    var key := ScheduleKey(show);
    recordDict.Upsert(key, Fill(FiledOrNew(recordDict, key, nowTicks), show, found.0, found.1, schedTimeOffset,
                                SanitizedName(show.name, platformInvalidChars)))
  }

  /** Filing a show adds its key only, gives the record under it the show's
      channel and keeps every channel the record had, and leaves the other
      records alone. */
  lemma FileShowSpec(recordDict: Dict<string, RecordInfo>, show: ScheduleShow, found: (KeywordInfo, int),
                     schedTimeOffset: Parsed, platformInvalidChars: string, nowTicks: nat)
    ensures var d := FileShow(recordDict, show, found, schedTimeOffset, platformInvalidChars, nowTicks);
            var key := ScheduleKey(show);
            && d.entries.Keys == recordDict.entries.Keys + {key}
            && PadChannel(show.channel) in d.entries[key].channels.entries
            && (key in recordDict.entries ==>
                  recordDict.entries[key].channels.entries.Keys <= d.entries[key].channels.entries.Keys)
            && (forall k :: k in recordDict.entries && k != key ==> d.entries[k] == recordDict.entries[k])
  {
    var key := ScheduleKey(show);
    FillSpec(FiledOrNew(recordDict, key, nowTicks), show, found.0, found.1, schedTimeOffset,
             SanitizedName(show.name, platformInvalidChars));
  }

  /** Filing keeps the dictionaries well formed and every record filed under
      its own description and start. */
  lemma FileShowKeeps(recordDict: Dict<string, RecordInfo>, show: ScheduleShow, found: (KeywordInfo, int),
                      schedTimeOffset: Parsed, platformInvalidChars: string, nowTicks: nat)
    ensures var d := FileShow(recordDict, show, found, schedTimeOffset, platformInvalidChars, nowTicks);
            && (recordDict.Valid() && ChannelsValid(recordDict) ==> d.Valid() && ChannelsValid(d))
            && (KeysMatch(recordDict) ==> KeysMatch(d))
  {
    var key := ScheduleKey(show);
    FillSpec(FiledOrNew(recordDict, key, nowTicks), show, found.0, found.1, schedTimeOffset,
             SanitizedName(show.name, platformInvalidChars));
  }

  /** One show of the listing handled: filed when a rule matches it, and
      otherwise skipped. */
  function FileIfMatched(recordDict: Dict<string, RecordInfo>, show: ScheduleShow, found: Option<(KeywordInfo, int)>,
                         schedTimeOffset: Parsed, platformInvalidChars: string, nowTicks: nat): Dict<string, RecordInfo>
  {
    if found.None? then recordDict
    else FileShow(recordDict, show, found.value, schedTimeOffset, platformInvalidChars, nowTicks)
  }

  /** The dictionary after the first `n` shows of the listing. */
  function Scheduled(recordDict: Dict<string, RecordInfo>, shows: seq<ScheduleShow>, n: nat,
                     findMatch: string -> Option<(KeywordInfo, int)>, schedTimeOffset: Parsed,
                     platformInvalidChars: string, nowTicks: nat): Dict<string, RecordInfo>
    requires n <= |shows|
    decreases n
  {
    if n == 0 then recordDict
    else
      var prev := Scheduled(recordDict, shows, n - 1, findMatch, schedTimeOffset, platformInvalidChars, nowTicks);
      FileIfMatched(prev, shows[n - 1], findMatch(shows[n - 1].name), schedTimeOffset, platformInvalidChars, nowTicks)
  }

  /** Handling one show adds at most its key. */
  lemma FileIfMatchedKeys(recordDict: Dict<string, RecordInfo>, show: ScheduleShow, found: Option<(KeywordInfo, int)>,
                          schedTimeOffset: Parsed, platformInvalidChars: string, nowTicks: nat)
    ensures FileIfMatched(recordDict, show, found, schedTimeOffset, platformInvalidChars, nowTicks).entries.Keys
            == recordDict.entries.Keys + (if found.Some? then {ScheduleKey(show)} else {})
  {
    if found.Some? {
      FileShowSpec(recordDict, show, found.value, schedTimeOffset, platformInvalidChars, nowTicks);
    }
  }

  /** Some of the first `n` shows is matched and filed under `key`. */
  predicate MatchedKey(shows: seq<ScheduleShow>, n: nat, findMatch: string -> Option<(KeywordInfo, int)>, key: string)
    requires n <= |shows|
  {
    exists i :: 0 <= i < n && findMatch(shows[i].name).Some? && ScheduleKey(shows[i]) == key
  }

  /** Every key of `d` was in `recordDict` or is the key of a matched show
      among the first `n`. */
  predicate KeysFrom(recordDict: Dict<string, RecordInfo>, d: Dict<string, RecordInfo>, shows: seq<ScheduleShow>, n: nat,
                     findMatch: string -> Option<(KeywordInfo, int)>)
    requires n <= |shows|
  {
    forall k :: k in d.entries ==> k in recordDict.entries || MatchedKey(shows, n, findMatch, k)
  }

  lemma KeysFromStep(recordDict: Dict<string, RecordInfo>, shows: seq<ScheduleShow>, n: nat,
                     findMatch: string -> Option<(KeywordInfo, int)>, schedTimeOffset: Parsed,
                     platformInvalidChars: string, nowTicks: nat)
    requires n < |shows|
    requires KeysFrom(recordDict, Scheduled(recordDict, shows, n, findMatch, schedTimeOffset, platformInvalidChars, nowTicks),
                      shows, n, findMatch)
    ensures KeysFrom(recordDict, Scheduled(recordDict, shows, n + 1, findMatch, schedTimeOffset, platformInvalidChars, nowTicks),
                     shows, n + 1, findMatch)
  {
    var prev := Scheduled(recordDict, shows, n, findMatch, schedTimeOffset, platformInvalidChars, nowTicks);
    var found := findMatch(shows[n].name);
    var d := FileIfMatched(prev, shows[n], found, schedTimeOffset, platformInvalidChars, nowTicks);
    FileIfMatchedKeys(prev, shows[n], found, schedTimeOffset, platformInvalidChars, nowTicks);
    forall k | k in d.entries ensures k in recordDict.entries || MatchedKey(shows, n + 1, findMatch, k) {
      if k in prev.entries {
        if MatchedKey(shows, n, findMatch, k) {
          var i :| 0 <= i < n && findMatch(shows[i].name).Some? && ScheduleKey(shows[i]) == k;
          assert 0 <= i < n + 1;
        }
      } else {
        assert 0 <= n < n + 1 && found.Some? && ScheduleKey(shows[n]) == k;
      }
    }
  }

  /** Scheduling files nothing but matched shows: every key afterwards was
      there before or is a matched show's key. */
  lemma {:induction false} ScheduledKeys(recordDict: Dict<string, RecordInfo>, shows: seq<ScheduleShow>, n: nat,
                      findMatch: string -> Option<(KeywordInfo, int)>, schedTimeOffset: Parsed,
                      platformInvalidChars: string, nowTicks: nat)
    requires n <= |shows|
    ensures forall k :: k in Scheduled(recordDict, shows, n, findMatch, schedTimeOffset, platformInvalidChars, nowTicks).entries
                        ==> k in recordDict.entries || MatchedKey(shows, n, findMatch, k)
  {
    for m := 0 to n
      invariant KeysFrom(recordDict, Scheduled(recordDict, shows, m, findMatch, schedTimeOffset, platformInvalidChars, nowTicks),
                         shows, m, findMatch)
    {
      KeysFromStep(recordDict, shows, m, findMatch, schedTimeOffset, platformInvalidChars, nowTicks);
    }
  }

  /** `d` is well formed and keyed by description and start whenever
      `recordDict` is. */
  predicate KeepsFrom(recordDict: Dict<string, RecordInfo>, d: Dict<string, RecordInfo>) {
    && (recordDict.Valid() && ChannelsValid(recordDict) ==> d.Valid() && ChannelsValid(d))
    && (KeysMatch(recordDict) ==> KeysMatch(d))
  }

  lemma KeepsFromStep(recordDict: Dict<string, RecordInfo>, prev: Dict<string, RecordInfo>, show: ScheduleShow,
                      found: Option<(KeywordInfo, int)>, schedTimeOffset: Parsed, platformInvalidChars: string, nowTicks: nat)
    requires KeepsFrom(recordDict, prev)
    ensures KeepsFrom(recordDict, FileIfMatched(prev, show, found, schedTimeOffset, platformInvalidChars, nowTicks))
  {
    if found.Some? {
      FileShowKeeps(prev, show, found.value, schedTimeOffset, platformInvalidChars, nowTicks);
    }
  }

  /** Scheduling keeps the dictionaries well formed and every record filed
      under its own description and start. */
  lemma {:induction false} ScheduledKeeps(recordDict: Dict<string, RecordInfo>, shows: seq<ScheduleShow>, n: nat,
                       findMatch: string -> Option<(KeywordInfo, int)>, schedTimeOffset: Parsed,
                       platformInvalidChars: string, nowTicks: nat)
    requires n <= |shows|
    ensures var d := Scheduled(recordDict, shows, n, findMatch, schedTimeOffset, platformInvalidChars, nowTicks);
            && (recordDict.Valid() && ChannelsValid(recordDict) ==> d.Valid() && ChannelsValid(d))
            && (KeysMatch(recordDict) ==> KeysMatch(d))
  {
    for m := 0 to n
      invariant KeepsFrom(recordDict, Scheduled(recordDict, shows, m, findMatch, schedTimeOffset, platformInvalidChars, nowTicks))
    {
      KeepsFromStep(recordDict, Scheduled(recordDict, shows, m, findMatch, schedTimeOffset, platformInvalidChars, nowTicks),
                    shows[m], findMatch(shows[m].name), schedTimeOffset, platformInvalidChars, nowTicks);
    }
  }

  /** Handling a show never takes a channel away from a filed record. */
  lemma FileIfMatchedKeepsChannel(recordDict: Dict<string, RecordInfo>, show: ScheduleShow, found: Option<(KeywordInfo, int)>,
                                  schedTimeOffset: Parsed, platformInvalidChars: string, nowTicks: nat,
                                  key: string, channel: string)
    requires key in recordDict.entries && channel in recordDict.entries[key].channels.entries
    ensures var d := FileIfMatched(recordDict, show, found, schedTimeOffset, platformInvalidChars, nowTicks);
            key in d.entries && channel in d.entries[key].channels.entries
  {
    if found.Some? {
      FileShowSpec(recordDict, show, found.value, schedTimeOffset, platformInvalidChars, nowTicks);
    }
  }

  /** The record under `key` in `d` lists `channel`. */
  predicate HasChannel(d: Dict<string, RecordInfo>, key: string, channel: string) {
    key in d.entries && channel in d.entries[key].channels.entries
  }

  /** Channels accumulate: a show listed on several channels is filed once,
      with every channel it was listed on. */
  lemma {:induction false} ScheduledChannels(recordDict: Dict<string, RecordInfo>, shows: seq<ScheduleShow>, n: nat,
                          findMatch: string -> Option<(KeywordInfo, int)>, schedTimeOffset: Parsed,
                          platformInvalidChars: string, nowTicks: nat, i: nat)
    requires n <= |shows|
    requires i < n && findMatch(shows[i].name).Some?
    ensures var d := Scheduled(recordDict, shows, n, findMatch, schedTimeOffset, platformInvalidChars, nowTicks);
            ScheduleKey(shows[i]) in d.entries
            && PadChannel(shows[i].channel) in d.entries[ScheduleKey(shows[i])].channels.entries
  {
    var key, channel := ScheduleKey(shows[i]), PadChannel(shows[i].channel);
    var before := Scheduled(recordDict, shows, i, findMatch, schedTimeOffset, platformInvalidChars, nowTicks);
    FileShowSpec(before, shows[i], findMatch(shows[i].name).value, schedTimeOffset, platformInvalidChars, nowTicks);
    for m := i + 1 to n
      invariant HasChannel(Scheduled(recordDict, shows, m, findMatch, schedTimeOffset, platformInvalidChars, nowTicks), key, channel)
    {
      FileIfMatchedKeepsChannel(Scheduled(recordDict, shows, m, findMatch, schedTimeOffset, platformInvalidChars, nowTicks),
                                shows[m], findMatch(shows[m].name), schedTimeOffset, platformInvalidChars, nowTicks,
                                key, channel);
    }
  }

  /** Shows no rule matches leave the dictionary as it was. */
  lemma {:induction false} UnmatchedShowsIgnored(recordDict: Dict<string, RecordInfo>, shows: seq<ScheduleShow>, n: nat,
                                                 findMatch: string -> Option<(KeywordInfo, int)>, schedTimeOffset: Parsed,
                                                 platformInvalidChars: string, nowTicks: nat)
    requires n <= |shows|
    requires forall i :: 0 <= i < n ==> findMatch(shows[i].name).None?
    ensures Scheduled(recordDict, shows, n, findMatch, schedTimeOffset, platformInvalidChars, nowTicks) == recordDict
    decreases n
  {
    if n > 0 {
      UnmatchedShowsIgnored(recordDict, shows, n - 1, findMatch, schedTimeOffset, platformInvalidChars, nowTicks);
    }
  }

  /** The record filed under `key` has been handed to a capture. */
  predicate SpawnedAt(d: Dict<string, RecordInfo>, key: string) {
    key in d.entries && d.entries[key].processSpawnedFlag
  }

  /** Handling a show never clears a dispatch flag: filing copies the show
      into the record already under its key, flags included. */
  lemma FileIfMatchedKeepsSpawned(recordDict: Dict<string, RecordInfo>, show: ScheduleShow,
                                  found: Option<(KeywordInfo, int)>, schedTimeOffset: Parsed,
                                  platformInvalidChars: string, nowTicks: nat, key: string)
    requires SpawnedAt(recordDict, key)
    ensures SpawnedAt(FileIfMatched(recordDict, show, found, schedTimeOffset, platformInvalidChars, nowTicks), key)
  {
    if found.Some? {
      var k := ScheduleKey(show);
      FillSpec(FiledOrNew(recordDict, k, nowTicks), show, found.value.0, found.value.1, schedTimeOffset,
               SanitizedName(show.name, platformInvalidChars));
    }
  }

  /** A record once dispatched stays flagged however often the schedule is
      rebuilt, since `BuildRecordSchedule` updates filed records in place. */
  lemma {:induction false} ScheduledKeepsSpawned(recordDict: Dict<string, RecordInfo>, shows: seq<ScheduleShow>, n: nat,
                                                 findMatch: string -> Option<(KeywordInfo, int)>, schedTimeOffset: Parsed,
                                                 platformInvalidChars: string, nowTicks: nat, key: string)
    requires n <= |shows| && SpawnedAt(recordDict, key)
    ensures SpawnedAt(Scheduled(recordDict, shows, n, findMatch, schedTimeOffset, platformInvalidChars, nowTicks), key)
  {
    for m := 0 to n
      invariant SpawnedAt(Scheduled(recordDict, shows, m, findMatch, schedTimeOffset, platformInvalidChars, nowTicks), key)
    {
      FileIfMatchedKeepsSpawned(Scheduled(recordDict, shows, m, findMatch, schedTimeOffset, platformInvalidChars, nowTicks),
                                shows[m], findMatch(shows[m].name), schedTimeOffset, platformInvalidChars, nowTicks, key);
    }
  }

  /** The queue hands out the filed records themselves: each queued record
      is the one filed under its own description and start. */
  lemma QueuedAreFiled(recordDict: Dict<string, RecordInfo>, now: int, hoursInFuture: int, maxConcurrent: int)
    requires recordDict.Valid() && KeysMatch(recordDict)
    ensures forall r :: r in ShowsToQueue(recordDict, now, hoursInFuture, maxConcurrent) ==>
              RecordKey(r) in recordDict.entries && recordDict.entries[RecordKey(r)] == r
  {
    var values := recordDict.Values();
    var sorted := SortByPos(values);
    SortByPosUpToContents(values, |values|);
    assert values[..|values|] == values;
    QueueContents(sorted, |sorted|, now, hoursInFuture, maxConcurrent);
    assert sorted[..|sorted|] == sorted;
    forall r | r in ShowsToQueue(recordDict, now, hoursInFuture, maxConcurrent)
      ensures RecordKey(r) in recordDict.entries && recordDict.entries[RecordKey(r)] == r
    {
      assert r in multiset(sorted);
      assert r in values;
      var i :| 0 <= i < |values| && values[i] == r;
      assert recordDict.entries[recordDict.keys[i]] == r;
    }
  }

  /** Some record of `s` is filed under `key`. */
  predicate KeyIn(key: string, s: seq<RecordInfo>) {
    exists r :: r in s && RecordKey(r) == key
  }

  lemma KeyInSnoc(key: string, s: seq<RecordInfo>, n: nat)
    requires n < |s|
    ensures KeyIn(key, s[..n + 1]) <==> KeyIn(key, s[..n]) || RecordKey(s[n]) == key
  {
    assert s[..n + 1] == s[..n] + [s[n]];
  }

  /** The record under `k` once the records of `dispatched` are flagged. */
  function FlaggedEntry(old_: Dict<string, RecordInfo>, k: string, dispatched: seq<RecordInfo>): RecordInfo
    requires k in old_.entries
  {
    if KeyIn(k, dispatched) then old_.entries[k].(processSpawnedFlag := true) else old_.entries[k]
  }

  /** `processSpawnedFlag` set on the record filed under `key`, if any. */
  function Flag(d: Dict<string, RecordInfo>, key: string): Dict<string, RecordInfo> {
    if key in d.entries then Dict(d.keys, d.entries[key := d.entries[key].(processSpawnedFlag := true)]) else d
  }

  /** `d` is `old_` with the records of `dispatched[..n]` flagged. */
  predicate FlaggedUpTo(old_: Dict<string, RecordInfo>, d: Dict<string, RecordInfo>, dispatched: seq<RecordInfo>, n: nat)
    requires n <= |dispatched|
  {
    && d.keys == old_.keys && d.entries.Keys == old_.entries.Keys
    && forall k :: k in d.entries ==> d.entries[k] == FlaggedEntry(old_, k, dispatched[..n])
  }

  lemma FlagStep(old_: Dict<string, RecordInfo>, d: Dict<string, RecordInfo>, dispatched: seq<RecordInfo>, n: nat)
    requires n < |dispatched| && FlaggedUpTo(old_, d, dispatched, n)
    ensures FlaggedUpTo(old_, Flag(d, RecordKey(dispatched[n])), dispatched, n + 1)
  {
    var d' := Flag(d, RecordKey(dispatched[n]));
    forall k | k in d'.entries
      ensures d'.entries[k] == FlaggedEntry(old_, k, dispatched[..n + 1])
    {
      KeyInSnoc(k, dispatched, n);
    }
  }

  /** Flagging a record keeps the dictionaries well formed and every record
      under its own key. */
  lemma FlagKeeps(d: Dict<string, RecordInfo>, key: string)
    ensures d.Valid() && ChannelsValid(d) ==> Flag(d, key).Valid() && ChannelsValid(Flag(d, key))
    ensures KeysMatch(d) ==> KeysMatch(Flag(d, key))
  {
  }

  class Recordings {
    var recordDict: Dict<string, RecordInfo>
    var queuedRecordings: seq<RecordInfo>

    ghost predicate Valid()
      reads this
    {
      recordDict.Valid() && ChannelsValid(recordDict)
    }

    /** The constructor: no records and an empty queue. */
    constructor ()
      ensures Valid() && recordDict == EmptyDict() && queuedRecordings == []
    {
      recordDict := EmptyDict();
      queuedRecordings := [];
    }

    /** `GetRecordInfo`: the filed record, or a fresh one (which is not filed). */
    function GetRecordInfo(recordInfoKey: string, nowTicks: nat): (recordInfo: RecordInfo)
      reads this
      ensures recordInfoKey in recordDict.entries ==> recordInfo == recordDict.entries[recordInfoKey]
      ensures recordInfoKey !in recordDict.entries ==> recordInfo == NewRecordInfo(nowTicks)
      ensures Valid() ==> recordInfo.channels.Valid()
    {
      FiledOrNew(recordDict, recordInfoKey, nowTicks)
    }

    /** `AddUpdateRecordInfo`: overwrite or add. */
    method AddUpdateRecordInfo(recordInfoKey: string, recordInfo: RecordInfo)
      requires Valid() && recordInfo.channels.Valid()
      modifies this
      ensures Valid()
      ensures recordDict == old(recordDict).Upsert(recordInfoKey, recordInfo)
      ensures recordDict.Get(recordInfoKey) == Some(recordInfo)
      ensures forall k :: k != recordInfoKey ==> recordDict.Get(k) == old(recordDict).Get(k)
      ensures recordDict.Count() == old(recordDict).Count() + (if recordInfoKey in old(recordDict).entries then 0 else 1)
      ensures queuedRecordings == old(queuedRecordings)
    {
      if recordInfoKey in recordDict.entries {
        recordDict := Dict(recordDict.keys, recordDict.entries[recordInfoKey := recordInfo]);
      } else {
        recordDict := Dict(recordDict.keys + [recordInfoKey], recordDict.entries[recordInfoKey := recordInfo]);
      }
    }

    /** `DeleteRecordInfo`: removes the entry under the record's description
        and start; when records are filed under their own keys that is the
        record itself, and nothing else goes. */
    method DeleteRecordInfo(recordInfoToDelete: RecordInfo)
      requires Valid()
      modifies this
      ensures Valid()
      ensures recordDict == old(recordDict).Remove(RecordKey(recordInfoToDelete))
      ensures RecordKey(recordInfoToDelete) !in recordDict.entries
      ensures forall k :: k != RecordKey(recordInfoToDelete) ==> recordDict.Get(k) == old(recordDict).Get(k)
      ensures KeysMatch(old(recordDict)) ==> KeysMatch(recordDict)
      ensures queuedRecordings == old(queuedRecordings)
    {
      recordDict := recordDict.Remove(RecordKey(recordInfoToDelete));
    }

    /** `GetShowsToQueue` without the removal from a list nobody reads (see
        `ShowsToQueueAsWritten`): a fresh queue of live filed records, in
        start order. */
    method GetShowsToQueue(now: int, hoursInFuture: int, maxConcurrent: int) returns (queued: seq<RecordInfo>)
      requires Valid()
      modifies this
      ensures Valid() && recordDict == old(recordDict)
      ensures queued == ShowsToQueue(recordDict, now, hoursInFuture, maxConcurrent)
      ensures queuedRecordings == queued
      ensures multiset(queued) <= multiset(recordDict.Values())
      ensures SortedByStart(queued, now) && AllLive(queued, now, hoursInFuture)
    {
      queuedRecordings := [];
      var recordingList := SortBasedOnKeywordPos(recordDict.Values());
      for idx := 0 to |recordingList|
        invariant recordDict == old(recordDict)
        invariant queuedRecordings == QueueUpTo(recordingList, idx, now, hoursInFuture, maxConcurrent)
      {
        var recordInfo := recordingList[idx];
        QueueStep(recordingList, idx, now, hoursInFuture, maxConcurrent);
        var showAlreadyDone := End(recordInfo, now) < now;
        var showTooFarAway := Start(recordInfo, now) > now + 60 * hoursInFuture;
        var concurrencyOk := IsConcurrencyOk(recordInfo, queuedRecordings, maxConcurrent, now);
        if !showAlreadyDone && !showTooFarAway && concurrencyOk {
          queuedRecordings := AddToSortedList(recordInfo, queuedRecordings, now);
        }
      }
      queued := queuedRecordings;
      QueueContents(recordingList, |recordingList|, now, hoursInFuture, maxConcurrent);
      QueueOrder(recordingList, |recordingList|, now, hoursInFuture, maxConcurrent);
      assert recordingList[..|recordingList|] == recordingList;
    }

    /** The flag the dispatch pass sets on a queued record is set on the
        record the dictionary holds, since both are the same object: every
        filed record whose key a dispatched record carries is flagged, and
        nothing else changes. */
    method SetProcessSpawned(dispatched: seq<RecordInfo>)
      requires Valid()
      modifies this
      ensures Valid() && queuedRecordings == old(queuedRecordings)
      ensures recordDict.keys == old(recordDict).keys && recordDict.entries.Keys == old(recordDict).entries.Keys
      ensures forall k :: k in recordDict.entries ==> recordDict.entries[k] == FlaggedEntry(old(recordDict), k, dispatched)
      ensures forall r :: r in dispatched && RecordKey(r) in recordDict.entries ==> SpawnedAt(recordDict, RecordKey(r))
      ensures KeysMatch(old(recordDict)) ==> KeysMatch(recordDict)
    {
      for n := 0 to |dispatched|
        invariant Valid() && queuedRecordings == old(queuedRecordings)
        invariant FlaggedUpTo(old(recordDict), recordDict, dispatched, n)
        invariant KeysMatch(old(recordDict)) ==> KeysMatch(recordDict)
      {
        var key := RecordKey(dispatched[n]);
        FlagStep(old(recordDict), recordDict, dispatched, n);
        FlagKeeps(recordDict, key);
        recordDict := Flag(recordDict, key);
      }
      assert dispatched[..|dispatched|] == dispatched;
      forall r | r in dispatched && RecordKey(r) in recordDict.entries
        ensures SpawnedAt(recordDict, RecordKey(r))
      {
        assert KeyIn(RecordKey(r), dispatched);
      }
    }

    /** The body of the listing loop of `BuildRecordSchedule`: a show that a
        rule matches is filed under its name and start, with its channel
        added and its fields copied in. */
    method FileShowOf(scheduleShow: ScheduleShow, findMatch: string -> Option<(KeywordInfo, int)>,
                      schedTimeOffset: Parsed, platformInvalidChars: string, nowTicks: nat)
      requires Valid()
      modifies this
      ensures Valid() && queuedRecordings == old(queuedRecordings)
      ensures recordDict == FileIfMatched(old(recordDict), scheduleShow, findMatch(scheduleShow.name),
                                          schedTimeOffset, platformInvalidChars, nowTicks)
    {
      var keyValue := scheduleShow.name + scheduleShow.time.text;
      var tuple := findMatch(scheduleShow.name);
      if tuple.Some? {
        var keywordInfo := tuple.value.0;
        var recordInfo := GetRecordInfo(keyValue, nowTicks);
        var fileName := SanitizeFileName(scheduleShow.name, platformInvalidChars);
        FillSpec(recordInfo, scheduleShow, keywordInfo, tuple.value.1, schedTimeOffset, fileName);
        recordInfo := Fill(recordInfo, scheduleShow, keywordInfo, tuple.value.1, schedTimeOffset, fileName);
        AddUpdateRecordInfo(keyValue, recordInfo);
      }
    }

    /** `BuildRecordSchedule`: every listed show that a keyword rule matches
        is filed (new, or updated in place), then the queue is rebuilt. The
        listing and the matcher are inputs; `findMatch` returns the rule and
        its position in the rule order. */
    method BuildRecordSchedule(shows: seq<ScheduleShow>, findMatch: string -> Option<(KeywordInfo, int)>,
                               schedTimeOffset: Parsed, platformInvalidChars: string, nowTicks: nat,
                               now: int, hoursInFuture: int, maxConcurrent: int)
      returns (queued: seq<RecordInfo>)
      requires Valid()
      modifies this
      ensures Valid()
      ensures recordDict == Scheduled(old(recordDict), shows, |shows|, findMatch, schedTimeOffset, platformInvalidChars, nowTicks)
      ensures queued == ShowsToQueue(recordDict, now, hoursInFuture, maxConcurrent) && queuedRecordings == queued
    {
      for n := 0 to |shows|
        invariant Valid() && queuedRecordings == old(queuedRecordings)
        invariant recordDict == Scheduled(old(recordDict), shows, n, findMatch, schedTimeOffset, platformInvalidChars, nowTicks)
      {
        FileShowOf(shows[n], findMatch, schedTimeOffset, platformInvalidChars, nowTicks);
      }
      queued := GetShowsToQueue(now, hoursInFuture, maxConcurrent);
    }
  }
}
