/** Shared building blocks: an optional value, C#'s integer division and
    running average, and the insertion-ordered dictionary that every
    `Dictionary<,>` of the recorder is modelled by. */
module Common {

  datatype Option<T> = None | Some(value: T)

  /** C#'s `/` on `long`/`int`: the quotient is truncated toward zero
      (Dafny's own `/` is Euclidean and differs for a negative dividend). */
  function TruncDiv(a: int, b: int): (q: int)
    requires b > 0
    ensures a >= 0 ==> q * b <= a < q * b + b
    ensures a < 0 ==> q * b - b < a <= q * b
    ensures a >= 0 ==> q >= 0
    ensures a <= 0 ==> q <= 0
  {
    if a >= 0 then a / b else -((-a) / b)
  }

  function Min(a: int, b: int): int { if a <= b then a else b }
  function Max(a: int, b: int): int { if a <= b then b else a }

  /** The smoothing rule used for every throughput figure: `(avg + observed) / 2`
      with C# truncation. The result never leaves the range spanned by the two
      inputs, so a non-negative history stays non-negative. */
  function Avg(avg: int, observed: int): (r: int)
    ensures Min(avg, observed) <= r <= Max(avg, observed)
    ensures avg >= 0 && observed >= 0 ==> r >= 0
  {
    TruncDiv(avg + observed, 2)
  }

  /** A .NET `Dictionary<K,V>` as the recorder uses it: a map plus the order in
      which its keys were first added, which is the order enumeration visits
      them (entries are only added or overwritten, never removed, in every
      caller that enumerates). */
  datatype Dict<K(==), V> = Dict(keys: seq<K>, entries: map<K, V>) {

    predicate Valid() {
      && (forall i, j :: 0 <= i < j < |keys| ==> keys[i] != keys[j])
      && (forall k :: k in entries ==> k in keys)
      && (forall i :: 0 <= i < |keys| ==> keys[i] in entries)
    }

    /** `dict.Count` */
    function Count(): nat { |keys| }

    /** `dict.Values`, in enumeration order. */
    function Values(): (vs: seq<V>)
      requires Valid()
      ensures |vs| == |keys|
      ensures forall i :: 0 <= i < |keys| ==> vs[i] == entries[keys[i]]
    {
      seq(|keys|, i requires 0 <= i < |keys| => entries[keys[i]])
    }

    /** `dict.TryGetValue(k, out v)` */
    function Get(k: K): (r: Option<V>)
      ensures r.Some? <==> k in entries
      ensures r.Some? ==> r.value == entries[k]
    {
      if k in entries then Some(entries[k]) else None
    }

    /** `if (ContainsKey(k)) dict[k] = v; else dict.Add(k, v);` */
    function Upsert(k: K, v: V): (d: Dict<K, V>)
      ensures Valid() ==> d.Valid()
      ensures d.entries == entries[k := v]
      ensures k in entries ==> d.keys == keys
      ensures k !in entries ==> d.keys == keys + [k]
      ensures d.Count() == if k in entries then Count() else Count() + 1
    {
      if k in entries then Dict(keys, entries[k := v]) else Dict(keys + [k], entries[k := v])
    }

    /** `dict.Remove(k)`; a missing key leaves the dictionary as it was. */
    function Remove(k: K): (d: Dict<K, V>)
      requires Valid()
      ensures d.Valid()
      ensures d.entries == entries - {k}
      ensures k !in entries ==> d == this
      ensures d.Count() == if k in entries then Count() - 1 else Count()
    {
      if k !in entries then this
      else
        var i := IndexOfKey(keys, k);
        RemoveAtValid(this, i);
        Dict(keys[..i] + keys[i + 1..], entries - {k})
    }
  }

  /** The first block of a three-way concatenation. */
  lemma FrontOfConcat<T>(a: seq<T>, b: seq<T>, c: seq<T>)
    ensures (a + b + c)[..|a|] == a
  {
    assert forall i :: 0 <= i < |a| ==> (a + b + c)[i] == a[i];
  }

  /** The element at `j` once position `i` is cut out. */
  lemma CutIndex<T>(s: seq<T>, i: nat, j: nat)
    requires i < |s| && j < |s| - 1
    ensures (s[..i] + s[i + 1..])[j] == if j < i then s[j] else s[j + 1]
  {
  }

  /** Cutting a key out of the order and out of the map keeps them in step. */
  lemma RemoveAtValid<K, V>(d: Dict<K, V>, i: nat)
    requires d.Valid() && i < |d.keys|
    ensures Dict(d.keys[..i] + d.keys[i + 1..], d.entries - {d.keys[i]}).Valid()
  {
    var k := d.keys[i];
    var r := d.keys[..i] + d.keys[i + 1..];
    forall a, b | 0 <= a < b < |r| ensures r[a] != r[b] {
      CutIndex(d.keys, i, a);
      CutIndex(d.keys, i, b);
    }
    forall x | x in d.entries - {k} ensures x in r {
      var j :| 0 <= j < |d.keys| && d.keys[j] == x;
      if j < i {
        CutIndex(d.keys, i, j);
      } else {
        CutIndex(d.keys, i, j - 1);
      }
    }
    forall a | 0 <= a < |r| ensures r[a] in d.entries - {k} {
      CutIndex(d.keys, i, a);
    }
  }

  function EmptyDict<K(==), V>(): (d: Dict<K, V>)
    ensures d.Valid() && d.Count() == 0 && d.entries == map[]
  {
    Dict([], map[])
  }

  function IndexOfKey<K(==)>(keys: seq<K>, k: K): (i: nat)
    requires k in keys
    ensures i < |keys| && keys[i] == k
    ensures k !in keys[..i]
  {
    if keys[0] == k then 0 else 1 + IndexOfKey(keys[1..], k)
  }

  function Elems<K>(s: seq<K>): set<K> {
    set x | x in s
  }

  lemma ElemsSnoc<K>(s: seq<K>, x: K)
    ensures Elems(s + [x]) == Elems(s) + {x}
  {
    forall y ensures y in Elems(s + [x]) <==> y in Elems(s) + {x} {
    }
  }

  ghost predicate NoRepeats<K>(s: seq<K>) {
    forall i, j :: 0 <= i < j < |s| ==> s[i] != s[j]
  }

  lemma DistinctCardStep<K>(s: seq<K>, k: nat)
    requires NoRepeats(s) && k < |s| && |Elems(s[..k])| == k
    ensures |Elems(s[..k + 1])| == k + 1
  {
    assert s[k] !in s[..k] by {
      forall j | 0 <= j < k ensures s[..k][j] != s[k] {
        assert s[..k][j] == s[j];
      }
    }
    ElemsSnoc(s[..k], s[k]);
    assert s[..k + 1] == s[..k] + [s[k]];
  }

  /** A sequence without repeats has as many distinct elements as entries. */
  lemma DistinctCard<K>(s: seq<K>)
    requires NoRepeats(s)
    ensures |Elems(s)| == |s|
  {
    for k := 0 to |s|
      invariant |Elems(s[..k])| == k
    {
      DistinctCardStep(s, k);
    }
    assert s[..|s|] == s;
  }

  /** The number of keys counted in enumeration order is the size of the map. */
  lemma CountIsMapSize<K, V>(d: Dict<K, V>)
    requires d.Valid()
    ensures |d.entries| == d.Count()
  {
    DistinctCard(d.keys);
    assert d.entries.Keys == Elems(d.keys);
  }
}
