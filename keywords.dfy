/** Keywords.cs: choosing the keyword rule that a show name matches.

    `FindMatch` walks the rules in dictionary order. For each rule it walks
    the comma-separated keyword terms; on the first term that occurs in the
    name (ignoring case) it checks every non-empty exclude term, and if none
    occurs it takes the rule and leaves the keyword loop. The `break` leaves
    only that inner loop, so the walk goes on over the remaining rules and a
    later matching rule overwrites an earlier one. */
module Keywords {
  import opened Common
  import opened Text

  /** A keyword rule. Keywords.cs splits `keywords` and `exclude` as strings
      (KeywordInfo.cs declares them as dictionaries; the matcher is followed). */
  datatype KeywordInfo = KeywordInfo(
    starredFlag: bool,
    emailFlag: bool,
    keywords: string,
    exclude: string,
    preMinutes: int,
    postMinutes: int,
    langPref: string,
    qualityPref: string,
    categoryPref: string,
    channelPref: string)

  // ---------------------------------------------------------------------
  // The loops of FindMatch, as the code runs them

  /** The exclude loop: `excludedFlag` after looking at terms `e..`. */
  function ExcludeLoop(excludeArray: seq<string>, e: nat, showName: string, excludedFlag: bool): bool
    requires e <= |excludeArray|
    decreases |excludeArray| - e
  {
    if e == |excludeArray| then excludedFlag
    else
      var hit := |excludeArray[e]| > 0 && ContainsIgnoreCase(showName, excludeArray[e]);
      ExcludeLoop(excludeArray, e + 1, showName, excludedFlag || hit)
  }

  /** The keyword loop from term `i` on: does it reach `keywordInfo = kvp.Value; break;`? */
  function KeywordLoop(kArray: seq<string>, i: nat, exclude: string, showName: string): bool
    requires i <= |kArray|
    decreases |kArray| - i
  {
    if i == |kArray| then false
    else if ContainsIgnoreCase(showName, kArray[i])
         && !ExcludeLoop(Split(exclude, ','), 0, showName, false) then true
    else KeywordLoop(kArray, i + 1, exclude, showName)
  }

  /** The outer loop over the rules from position `idx` on, carrying `keywordInfo`. */
  function FindMatchFrom(keywordDict: Dict<string, KeywordInfo>, showName: string, idx: nat,
                         keywordInfo: Option<KeywordInfo>): Option<KeywordInfo>
    requires keywordDict.Valid() && idx <= |keywordDict.keys|
    decreases |keywordDict.keys| - idx
  {
    if idx == |keywordDict.keys| then keywordInfo
    else
      var rule := keywordDict.entries[keywordDict.keys[idx]];
      var selected := KeywordLoop(Split(rule.keywords, ','), 0, rule.exclude, showName);
      FindMatchFrom(keywordDict, showName, idx + 1, if selected then Some(rule) else keywordInfo)
  }

  /** `FindMatch(showName)`; `None` stands for the `null` the code returns. */
  function FindMatch(keywordDict: Dict<string, KeywordInfo>, showName: string): Option<KeywordInfo>
    requires keywordDict.Valid()
  {
    FindMatchFrom(keywordDict, showName, 0, None)
  }

  // ---------------------------------------------------------------------
  // What a match means, stated without the loops

  /** Some keyword term occurs in the name (an empty term occurs in every name). */
  predicate HasKeyword(terms: seq<string>, showName: string) {
    exists i :: 0 <= i < |terms| && ContainsIgnoreCase(showName, terms[i])
  }

  /** Some non-empty exclude term occurs in the name (empty terms are ignored). */
  predicate IsExcluded(terms: seq<string>, showName: string) {
    exists e :: 0 <= e < |terms| && |terms[e]| > 0 && ContainsIgnoreCase(showName, terms[e])
  }

  predicate RuleMatches(rule: KeywordInfo, showName: string) {
    HasKeyword(Split(rule.keywords, ','), showName) && !IsExcluded(Split(rule.exclude, ','), showName)
  }

  /** The rule at position `j` in dictionary order. */
  function RuleAt(keywordDict: Dict<string, KeywordInfo>, j: nat): KeywordInfo
    requires keywordDict.Valid() && j < |keywordDict.keys|
  {
    keywordDict.entries[keywordDict.keys[j]]
  }

  /** Which rules match the name, in dictionary order. */
  function Matched(keywordDict: Dict<string, KeywordInfo>, showName: string): (m: seq<bool>)
    requires keywordDict.Valid()
    ensures |m| == |keywordDict.keys|
    ensures forall j :: 0 <= j < |m| ==> m[j] == RuleMatches(RuleAt(keywordDict, j), showName)
  {
    seq(|keywordDict.keys|, j requires 0 <= j < |keywordDict.keys| => RuleMatches(RuleAt(keywordDict, j), showName))
  }

  /** The last position below `n` whose flag is set. */
  function LastTrue(m: seq<bool>, n: nat): (r: Option<nat>)
    requires n <= |m|
    ensures r.Some? ==> r.value < n
    decreases n
  {
    if n == 0 then None else if m[n - 1] then Some(n - 1) else LastTrue(m, n - 1)
  }

  lemma {:induction false} LastTrueSpec(m: seq<bool>, n: nat)
    requires n <= |m|
    ensures LastTrue(m, n).None? <==> forall j :: 0 <= j < n ==> !m[j]
    ensures LastTrue(m, n).Some? ==>
              m[LastTrue(m, n).value] && forall j :: LastTrue(m, n).value < j < n ==> !m[j]
    decreases n
  {
    if n > 0 {
      LastTrueSpec(m, n - 1);
    }
  }

  /** The last rule, among the first `n` in dictionary order, that matches. */
  function LastMatch(keywordDict: Dict<string, KeywordInfo>, showName: string, n: nat): (r: Option<KeywordInfo>)
    requires keywordDict.Valid() && n <= |keywordDict.keys|
  {
    var j := LastTrue(Matched(keywordDict, showName), n);
    if j.None? then None else Some(RuleAt(keywordDict, j.value))
  }

  lemma {:induction false} ExcludeLoopSpec(excludeArray: seq<string>, e: nat, showName: string, flag: bool)
    requires e <= |excludeArray|
    ensures ExcludeLoop(excludeArray, e, showName, flag)
            <==> flag || exists j :: e <= j < |excludeArray| && |excludeArray[j]| > 0
                                     && ContainsIgnoreCase(showName, excludeArray[j])
    decreases |excludeArray| - e
  {
    if e < |excludeArray| {
      var hit := |excludeArray[e]| > 0 && ContainsIgnoreCase(showName, excludeArray[e]);
      ExcludeLoopSpec(excludeArray, e + 1, showName, flag || hit);
    }
  }

  lemma {:induction false} KeywordLoopSpec(kArray: seq<string>, i: nat, exclude: string, showName: string)
    requires i <= |kArray|
    ensures KeywordLoop(kArray, i, exclude, showName)
            <==> (exists j :: i <= j < |kArray| && ContainsIgnoreCase(showName, kArray[j]))
                 && !IsExcluded(Split(exclude, ','), showName)
    decreases |kArray| - i
  {
    ExcludeLoopSpec(Split(exclude, ','), 0, showName, false);
    if i < |kArray| {
      KeywordLoopSpec(kArray, i + 1, exclude, showName);
    }
  }

  /** The nested loops select a rule exactly when the rule matches. */
  lemma RuleSelectedIff(rule: KeywordInfo, showName: string)
    ensures KeywordLoop(Split(rule.keywords, ','), 0, rule.exclude, showName) <==> RuleMatches(rule, showName)
  {
    KeywordLoopSpec(Split(rule.keywords, ','), 0, rule.exclude, showName);
  }

  lemma {:induction false} FindMatchFromIsLastMatch(keywordDict: Dict<string, KeywordInfo>, showName: string, idx: nat)
    requires keywordDict.Valid() && idx <= |keywordDict.keys|
    ensures FindMatchFrom(keywordDict, showName, idx, LastMatch(keywordDict, showName, idx))
            == LastMatch(keywordDict, showName, |keywordDict.keys|)
    decreases |keywordDict.keys| - idx
  {
    if idx < |keywordDict.keys| {
      FindMatchFromStep(keywordDict, showName, idx);
      FindMatchFromIsLastMatch(keywordDict, showName, idx + 1);
    }
  }

  /** One pass of the outer loop turns the last match among the first `idx`
      rules into the last match among the first `idx + 1`. */
  lemma FindMatchFromStep(keywordDict: Dict<string, KeywordInfo>, showName: string, idx: nat)
    requires keywordDict.Valid() && idx < |keywordDict.keys|
    ensures FindMatchFrom(keywordDict, showName, idx, LastMatch(keywordDict, showName, idx))
            == FindMatchFrom(keywordDict, showName, idx + 1, LastMatch(keywordDict, showName, idx + 1))
  {
    var rule := RuleAt(keywordDict, idx);
    var selected := KeywordLoop(Split(rule.keywords, ','), 0, rule.exclude, showName);
    var before := LastMatch(keywordDict, showName, idx);
    RuleSelectedIff(rule, showName);
    LastMatchSnoc(keywordDict, showName, idx);
    assert (if selected then Some(rule) else before) == LastMatch(keywordDict, showName, idx + 1);
  }

  /** One more rule: it is the last match if it matches, otherwise the last
      match is unchanged. */
  lemma LastMatchSnoc(keywordDict: Dict<string, KeywordInfo>, showName: string, n: nat)
    requires keywordDict.Valid() && n < |keywordDict.keys|
    ensures LastMatch(keywordDict, showName, n + 1)
            == if RuleMatches(RuleAt(keywordDict, n), showName) then Some(RuleAt(keywordDict, n))
               else LastMatch(keywordDict, showName, n)
  {
    var m := Matched(keywordDict, showName);
    assert m[n] == RuleMatches(RuleAt(keywordDict, n), showName);
  }

  /** Last match wins: `FindMatch` returns the last rule in dictionary order
      that matches the name. */
  lemma FindMatchIsLastMatch(keywordDict: Dict<string, KeywordInfo>, showName: string)
    requires keywordDict.Valid()
    ensures FindMatch(keywordDict, showName) == LastMatch(keywordDict, showName, |keywordDict.keys|)
  {
    FindMatchFromIsLastMatch(keywordDict, showName, 0);
  }

  /** No result exactly when none of the first `n` rules matches; otherwise
      the result is a rule among them that matches, and no later one does. */
  lemma LastMatchSpec(keywordDict: Dict<string, KeywordInfo>, showName: string, n: nat)
    requires keywordDict.Valid() && n <= |keywordDict.keys|
    ensures LastMatch(keywordDict, showName, n).None?
            <==> forall j :: 0 <= j < n ==> !RuleMatches(RuleAt(keywordDict, j), showName)
    ensures LastMatch(keywordDict, showName, n).Some? ==>
              exists j :: 0 <= j < n
                && LastMatch(keywordDict, showName, n).value == RuleAt(keywordDict, j)
                && RuleMatches(RuleAt(keywordDict, j), showName)
                && forall j' :: j < j' < n ==> !RuleMatches(RuleAt(keywordDict, j'), showName)
  {
    var m := Matched(keywordDict, showName);
    LastTrueSpec(m, n);
    if LastTrue(m, n).Some? {
      var j := LastTrue(m, n).value;
      assert m[j];
      forall j' | j < j' < n ensures !RuleMatches(RuleAt(keywordDict, j'), showName) {
        assert !m[j'];
      }
    } else {
      forall j | 0 <= j < n ensures !RuleMatches(RuleAt(keywordDict, j), showName) {
        assert !m[j];
      }
    }
  }

  /** `FindMatch` returns null exactly when no rule matches; otherwise it
      returns a rule stored in the dictionary that matches and after which, in
      dictionary order, no rule matches. */
  lemma FindMatchSpec(keywordDict: Dict<string, KeywordInfo>, showName: string)
    requires keywordDict.Valid()
    ensures FindMatch(keywordDict, showName).None?
            <==> forall k :: k in keywordDict.entries ==> !RuleMatches(keywordDict.entries[k], showName)
    ensures FindMatch(keywordDict, showName).Some? ==>
              exists j :: 0 <= j < |keywordDict.keys|
                && FindMatch(keywordDict, showName).value == keywordDict.entries[keywordDict.keys[j]]
                && RuleMatches(keywordDict.entries[keywordDict.keys[j]], showName)
                && forall j' :: j < j' < |keywordDict.keys| ==> !RuleMatches(keywordDict.entries[keywordDict.keys[j']], showName)
  {
    var n := |keywordDict.keys|;
    FindMatchIsLastMatch(keywordDict, showName);
    LastMatchSpec(keywordDict, showName, n);
    var last := LastMatch(keywordDict, showName, n);
    if last.Some? {
      var j :| 0 <= j < n && last.value == RuleAt(keywordDict, j)
               && RuleMatches(RuleAt(keywordDict, j), showName)
               && forall j' :: j < j' < n ==> !RuleMatches(RuleAt(keywordDict, j'), showName);
      var k := keywordDict.keys[j];
      assert k in keywordDict.entries && RuleAt(keywordDict, j) == keywordDict.entries[k];
      forall j' | j < j' < n ensures !RuleMatches(keywordDict.entries[keywordDict.keys[j']], showName) {
        assert RuleAt(keywordDict, j') == keywordDict.entries[keywordDict.keys[j']];
      }
    } else {
      forall k | k in keywordDict.entries ensures !RuleMatches(keywordDict.entries[k], showName) {
        var j :| 0 <= j < n && keywordDict.keys[j] == k;
        assert RuleAt(keywordDict, j) == keywordDict.entries[k];
      }
    }
  }

  /** A rule whose keyword list is empty matches every name in which none of
      its non-empty exclude terms occurs. */
  lemma EmptyKeywordMatchesAll(rule: KeywordInfo, showName: string)
    requires rule.keywords == ""
    requires !IsExcluded(Split(rule.exclude, ','), showName)
    ensures RuleMatches(rule, showName)
  {
    assert Split("", ',') == [""];
    ContainsEmpty(ToLower(showName));
    assert ToLower("") == "";
    assert ContainsIgnoreCase(showName, Split(rule.keywords, ',')[0]);
  }

  /** Empty exclude terms never exclude: a rule whose exclude list is empty or
      consists only of commas matches as soon as a keyword occurs. */
  lemma EmptyExcludeTermsIgnored(rule: KeywordInfo, showName: string)
    requires forall c :: c in rule.exclude ==> c == ','
    requires HasKeyword(Split(rule.keywords, ','), showName)
    ensures RuleMatches(rule, showName)
  {
    var terms := Split(rule.exclude, ',');
    forall e | 0 <= e < |terms| ensures |terms[e]| == 0 {
      assert terms[e] in terms;
      if |terms[e]| > 0 {
        CharOfPiece(rule.exclude, ',', terms[e], terms[e][0]);
      }
    }
  }

  /** Every character of a piece of `s.Split(d)` is a character of `s`. */
  lemma {:induction false} CharOfPiece(s: string, d: char, t: string, c: char)
    requires t in Split(s, d) && c in t
    ensures c in s
    decreases |s|
  {
    if |s| > 0 {
      var rest := Split(s[1..], d);
      if s[0] == d {
        assert t in rest;
        CharOfPiece(s[1..], d, t, c);
      } else if t == [s[0]] + rest[0] && c != s[0] {
        assert c in rest[0];
        CharOfPiece(s[1..], d, rest[0], c);
      } else if c != s[0] {
        assert t in rest[1..];
        CharOfPiece(s[1..], d, t, c);
      }
    }
  }
}
