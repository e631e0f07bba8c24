/** The .NET string operations the recorder relies on, on `seq<char>`:
    ASCII lower-casing (`ToLower`), `Contains`, `Split(char)`, `Replace`
    (all non-overlapping occurrences, left to right), `Path.Combine` with a
    '/' separator and `int.ToString()` for non-negative numbers. */
module Text {

  function LowerChar(c: char): char {
    if 'A' <= c <= 'Z' then (c as int + 32) as char else c
  }

  function ToLower(s: string): string {
    seq(|s|, i requires 0 <= i < |s| => LowerChar(s[i]))
  }

  /** `s.Contains(t)`: `t` occurs in `s` as a contiguous piece; the empty
      string occurs in every string. */
  predicate Contains(s: string, t: string)
    decreases |s|
  {
    |t| <= |s| && (s[..|t|] == t || (|s| > 0 && Contains(s[1..], t)))
  }

  /** Case-insensitive containment, `s.ToLower().Contains(t.ToLower())`. */
  predicate ContainsIgnoreCase(s: string, t: string) {
    Contains(ToLower(s), ToLower(t))
  }

  lemma {:induction false} ContainsEmpty(s: string)
    ensures Contains(s, "")
  {
    assert s[..0] == "";
  }

  /** `Contains` agrees with "some position starts a copy of `t`". */
  lemma {:induction false} ContainsAt(s: string, t: string, i: nat)
    requires i + |t| <= |s| && s[i..i + |t|] == t
    ensures Contains(s, t)
    decreases i
  {
    if i > 0 {
      assert s[1..][i - 1..i - 1 + |t|] == s[i..i + |t|];
      ContainsAt(s[1..], t, i - 1);
    }
  }

  /** `s.Split(d)`: the pieces between the occurrences of `d`, in order. There
      is always at least one piece, and no piece contains `d`. */
  function Split(s: string, d: char): (parts: seq<string>)
    ensures |parts| >= 1
    ensures forall p :: p in parts ==> d !in p
    decreases |s|
  {
    if |s| == 0 then [""]
    else
      var rest := Split(s[1..], d);
      if s[0] == d then [""] + rest else [[s[0]] + rest[0]] + rest[1..]
  }

  /** `string.Join(d, parts)` */
  function Join(parts: seq<string>, d: char): string
    decreases |parts|
  {
    if |parts| == 0 then ""
    else if |parts| == 1 then parts[0]
    else parts[0] + [d] + Join(parts[1..], d)
  }

  /** Splitting and joining again gives back the original string. */
  lemma {:induction false} JoinSplit(s: string, d: char)
    ensures Join(Split(s, d), d) == s
    decreases |s|
  {
    if |s| > 0 {
      var rest := Split(s[1..], d);
      JoinSplit(s[1..], d);
      if s[0] == d {
        assert Split(s, d) == [""] + rest;
        assert ([""] + rest)[1..] == rest;
      } else {
        var parts := [[s[0]] + rest[0]] + rest[1..];
        assert Split(s, d) == parts;
        if |rest| == 1 {
          assert Join(parts, d) == [s[0]] + rest[0];
        } else {
          assert parts[1..] == rest[1..];
          assert Join(parts, d) == [s[0]] + rest[0] + [d] + Join(rest[1..], d);
        }
        assert s == [s[0]] + s[1..];
      }
    }
  }

  lemma {:induction false} SplitFree(a: string, d: char)
    requires d !in a
    ensures Split(a, d) == [a]
    decreases |a|
  {
    if |a| > 0 {
      SplitFree(a[1..], d);
      assert a == [a[0]] + a[1..];
    }
  }

  lemma {:induction false} SplitCons(a: string, b: string, d: char)
    requires d !in a
    ensures Split(a + [d] + b, d) == [a] + Split(b, d)
    decreases |a|
  {
    var s := a + [d] + b;
    if |a| == 0 {
      assert s[1..] == b;
    } else {
      assert s[1..] == a[1..] + [d] + b;
      SplitCons(a[1..], b, d);
      assert a == [a[0]] + a[1..];
    }
  }

  /** Joining pieces that do not contain the separator and splitting again
      gives back the pieces. */
  lemma {:induction false} SplitJoin(parts: seq<string>, d: char)
    requires |parts| >= 1
    requires forall p :: p in parts ==> d !in p
    ensures Split(Join(parts, d), d) == parts
    decreases |parts|
  {
    if |parts| == 1 {
      SplitFree(parts[0], d);
    } else {
      assert parts[0] in parts;
      assert forall p :: p in parts[1..] ==> p in parts;
      SplitJoin(parts[1..], d);
      SplitCons(parts[0], Join(parts[1..], d), d);
      assert parts == [parts[0]] + parts[1..];
    }
  }

  /** `s.Replace(p, r)` for a non-empty `p`: every occurrence of `p`, found
      left to right without overlap, is replaced by `r`. */
  function ReplaceAll(s: string, p: string, r: string): string
    requires |p| > 0
    decreases |s|
  {
    if |s| < |p| then s
    else if s[..|p|] == p then r + ReplaceAll(s[|p|..], p, r)
    else [s[0]] + ReplaceAll(s[1..], p, r)
  }

  /** A string without an occurrence of `p` is returned unchanged. */
  lemma {:induction false} ReplaceAbsent(s: string, p: string, r: string)
    requires |p| > 0 && !Contains(s, p)
    ensures ReplaceAll(s, p, r) == s
    decreases |s|
  {
    if |s| >= |p| {
      ReplaceAbsent(s[1..], p, r);
      assert s == [s[0]] + s[1..];
    }
  }

  /** When the first character of `p` does not occur in `a`, the first
      occurrence of `p` in `a + p + b` is the one right after `a`. */
  lemma ReplaceSplice(a: string, p: string, b: string, r: string)
    requires |p| > 0 && p[0] !in a
    ensures ReplaceAll(a + p + b, p, r) == a + r + ReplaceAll(b, p, r)
  {
    ReplacePrefixFree(a, p + b, p, r);
    assert a + p + b == a + (p + b);
    assert (p + b)[..|p|] == p && (p + b)[|p|..] == b;
  }

  /** Where the input starts with `p`, the output starts with the replacement. */
  lemma ReplaceAtMatch(s: string, p: string, r: string)
    requires |p| > 0
    ensures |p| <= |s| && s[..|p|] == p ==> ReplaceAll(s, p, r)[..|r|] == r
  {
  }

  /** While the output of `ReplaceAll` shows only characters of `p`, it is
      a plain copy of the input: a replacement would start with `r[0]`. */
  lemma {:induction false} ReplacePrefixCopied(s: string, p: string, r: string, k: nat)
    requires |p| > 0 && |r| > 0 && r[0] !in p
    requires k <= |ReplaceAll(s, p, r)|
    requires forall j :: 0 <= j < k ==> ReplaceAll(s, p, r)[j] in p
    ensures k <= |s| && ReplaceAll(s, p, r)[..k] == s[..k]
    decreases |s|
  {
    var out := ReplaceAll(s, p, r);
    if |s| >= |p| && k > 0 {
      if s[..|p|] == p {
        ReplaceAtMatch(s, p, r);
        assert false;
      } else {
        var rest := ReplaceAll(s[1..], p, r);
        assert out == [s[0]] + rest;
        forall j | 0 <= j < k - 1 ensures rest[j] in p {
          assert rest[j] == out[j + 1];
        }
        ReplacePrefixCopied(s[1..], p, r, k - 1);
        assert out[..k] == [s[0]] + rest[..k - 1];
        assert s[..k] == [s[0]] + s[1..][..k - 1];
      }
    }
  }

  /** No occurrence of `t` can start inside a prefix that lacks `t[0]`. */
  lemma {:induction false} ContainsAfterForeign(a: string, b: string, t: string)
    requires |t| > 0 && t[0] !in a && !Contains(b, t)
    ensures !Contains(a + b, t)
    decreases |a|
  {
    if |a| == 0 {
      assert a + b == b;
    } else {
      assert (a + b)[1..] == a[1..] + b;
      assert t[0] !in a[1..] by {
        assert forall x :: x in a[1..] ==> x in a;
      }
      ContainsAfterForeign(a[1..], b, t);
      if |t| <= |a + b| {
        assert (a + b)[0] == a[0];
      }
    }
  }

  /** Replacing `p` by a non-empty text that shares no character with `p`
      leaves no occurrence of `p`. */
  lemma {:induction false} ReplaceRemoves(s: string, p: string, r: string)
    requires |p| > 0 && |r| > 0
    requires forall c :: c in r ==> c !in p
    ensures !Contains(ReplaceAll(s, p, r), p)
    decreases |s|
  {
    var out := ReplaceAll(s, p, r);
    if |s| >= |p| {
      if s[..|p|] == p {
        ReplaceRemoves(s[|p|..], p, r);
        ContainsAfterForeign(r, ReplaceAll(s[|p|..], p, r), p);
      } else {
        var rest := ReplaceAll(s[1..], p, r);
        ReplaceRemoves(s[1..], p, r);
        assert out == [s[0]] + rest;
        if |p| <= |out| && out[..|p|] == p {
          forall j | 0 <= j < |p| - 1 ensures rest[j] in p {
            assert rest[j] == p[j + 1];
          }
          ReplacePrefixCopied(s[1..], p, r, |p| - 1);
          assert false;
        }
        assert out[1..] == rest;
      }
    } else {
      assert out == s;
    }
  }

  /** A prefix without the first character of `p` is copied unchanged, and
      replacement goes on after it. */
  lemma ReplacePrefixFree(a: string, v: string, p: string, r: string)
    requires |p| > 0 && p[0] !in a
    ensures ReplaceAll(a + v, p, r) == a + ReplaceAll(v, p, r)
  {
    var k := |a|;
    assert a[k..] == [] && a[k..] + v == v;
    while k > 0
      invariant 0 <= k <= |a| && PrefixFreeFrom(a, v, p, r, k)
    {
      k := k - 1;
      PrefixFreeStep(a, v, p, r, k);
    }
    assert a[0..] == a;
  }

  /** `ReplaceAll` copies the suffix `a[k..]` of a text free of `p[0]`. */
  predicate PrefixFreeFrom(a: string, v: string, p: string, r: string, k: nat)
    requires |p| > 0 && k <= |a|
  {
    ReplaceAll(a[k..] + v, p, r) == a[k..] + ReplaceAll(v, p, r)
  }

  lemma PrefixFreeStep(a: string, v: string, p: string, r: string, k: nat)
    requires |p| > 0 && p[0] !in a && k < |a|
    requires PrefixFreeFrom(a, v, p, r, k + 1)
    ensures PrefixFreeFrom(a, v, p, r, k)
  {
    var s := a[k..] + v;
    assert s[0] == a[k] && a[k] in a;
    if |s| >= |p| {
      assert s[..|p|][0] == a[k];
      assert s[1..] == a[k + 1..] + v;
    }
    assert a[k..] == [a[k]] + a[k + 1..];
  }

  /** A placeholder of a template: `[` followed by a name without `[`. */
  predicate Slot(x: string) {
    |x| >= 2 && x[0] == '[' && '[' !in x[1..]
  }

  /** A piece of a template that replacing `p` treats as a unit: `p` itself,
      text without `[`, or another placeholder whose name starts differently. */
  predicate Piece(x: string, p: string)
    requires Slot(p)
  {
    x == p || '[' !in x || (Slot(x) && x[1] != p[1])
  }

  function Concat(pieces: seq<string>): string
    decreases |pieces|
  {
    if |pieces| == 0 then "" else pieces[0] + Concat(pieces[1..])
  }

  /** The pieces with every occurrence of the piece `p` changed to `r`. */
  function Subst(pieces: seq<string>, p: string, r: string): (out: seq<string>)
    ensures |out| == |pieces|
    ensures forall i :: 0 <= i < |pieces| ==> out[i] == (if pieces[i] == p then r else pieces[i])
    decreases |pieces|
  {
    if |pieces| == 0 then [] else [if pieces[0] == p then r else pieces[0]] + Subst(pieces[1..], p, r)
  }

  /** A piece that is another placeholder is copied unchanged, and
      replacement goes on after it: its second character already differs. */
  lemma OtherSlotCopied(x: string, v: string, p: string, r: string)
    requires Slot(p) && Slot(x) && x[1] != p[1]
    ensures ReplaceAll(x + v, p, r) == x + ReplaceAll(v, p, r)
  {
    var s := x + v;
    assert p[0] !in x[1..];
    ReplacePrefixFree(x[1..], v, p, r);
    assert s[1..] == x[1..] + v;
    assert x == [x[0]] + x[1..];
    if |s| >= |p| {
      assert s[..|p|] != p by {
        assert s[1] == x[1];
      }
    }
  }

  /** On a template cut into pieces, replacing a placeholder acts piece by
      piece: no occurrence is found across two pieces. */
  lemma {:induction false} ReplacePieces(pieces: seq<string>, p: string, r: string)
    requires Slot(p)
    requires forall x :: x in pieces ==> Piece(x, p)
    ensures ReplaceAll(Concat(pieces), p, r) == Concat(Subst(pieces, p, r))
    decreases |pieces|
  {
    if |pieces| > 0 {
      var x, v := pieces[0], Concat(pieces[1..]);
      assert Piece(x, p) by {
        assert x in pieces;
      }
      assert forall y :: y in pieces[1..] ==> y in pieces;
      ReplacePieces(pieces[1..], p, r);
      assert Subst(pieces, p, r) == [if x == p then r else x] + Subst(pieces[1..], p, r);
      if x == p {
        ReplaceSplice("", p, v, r);
        assert "" + p + v == x + v;
      } else if '[' !in x {
        ReplacePrefixFree(x, v, p, r);
      } else {
        OtherSlotCopied(x, v, p, r);
      }
    }
  }

  /** Appending one more part to a join adds a separator and the part. */
  lemma {:induction false} JoinSnoc(parts: seq<string>, x: string, d: char)
    requires |parts| >= 1
    ensures Join(parts + [x], d) == Join(parts, d) + [d] + x
    decreases |parts|
  {
    if |parts| > 1 {
      assert (parts + [x])[1..] == parts[1..] + [x];
      JoinSnoc(parts[1..], x, d);
    }
  }

  /** `s.Replace(c.ToString(), "")`: drops every `c` and keeps every other
      character. */
  lemma {:induction false} RemoveCharSpec(s: string, c: char, x: char)
    ensures x in ReplaceAll(s, [c], "") <==> x in s && x != c
    decreases |s|
  {
    if |s| > 0 {
      RemoveCharSpec(s[1..], c, x);
      assert s == [s[0]] + s[1..];
      assert s[..1] == [s[0]];
    }
  }

  /** `s.Replace(a, b)` for characters. */
  function ReplaceChar(s: string, a: char, b: char): (r: string)
    ensures |r| == |s|
    ensures forall i :: 0 <= i < |s| ==> r[i] == if s[i] == a then b else s[i]
  {
    seq(|s|, i requires 0 <= i < |s| => if s[i] == a then b else s[i])
  }

  /** `Path.Combine(a, b)` with '/' as the directory separator: the result
      holds no character that neither part nor the separator holds. */
  function Combine(a: string, b: string): (c: string)
    ensures forall x :: x in c ==> x in a || x in b || x == '/'
  {
    if |a| == 0 then b
    else if |b| > 0 && b[0] == '/' then b
    else if a[|a| - 1] == '/' then a + b
    else a + "/" + b
  }

  function DigitChar(n: nat): char
    requires n < 10
  {
    ('0' as int + n) as char
  }

  /** `n.ToString()` for a non-negative `n`: its decimal digits. */
  function NatToString(n: nat): (s: string)
    ensures |s| >= 1
    ensures forall c :: c in s ==> '0' <= c <= '9'
    decreases n
  {
    if n < 10 then [DigitChar(n)] else NatToString(n / 10) + [DigitChar(n % 10)]
  }
}
