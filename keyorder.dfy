/**
 * The order in which JavaScript enumerates the string keys of a plain object
 * (`Object.values`, `Object.entries`): keys that are array indices first, in
 * ascending numeric order, then every other key in insertion order.
 */
module KeyOrder {
  import opened Text
  import opened Seqs

  const MaxArrayIndex: nat := 4294967294

  /** The canonical decimal form of an integer in 0 .. 2^32 - 2. */
  predicate IsArrayIndex(k: string)
  {
    |k| >= 1 && AllDigits(k) && (|k| > 1 ==> k[0] != '0') && DigitsValue(k) <= MaxArrayIndex
  }

  predicate AllIndexKeys(s: seq<string>)
  {
    forall i :: 0 <= i < |s| ==> IsArrayIndex(s[i])
  }

  /** The numeric value of an array-index key (0 for any other key). */
  function IndexValue(k: string): nat
  {
    if IsArrayIndex(k) then DigitsValue(k) else 0
  }

  predicate SortedByIndex(s: seq<string>)
  {
    AllIndexKeys(s) && forall i, j :: 0 <= i < j < |s| ==> IndexValue(s[i]) <= IndexValue(s[j])
  }

  /** The array-index keys of `ks`, in insertion order. */
  function IndexKeys(ks: seq<string>): (r: seq<string>)
    ensures AllIndexKeys(r)
  {
    if ks == [] then []
    else IndexKeys(ks[..|ks| - 1]) + if IsArrayIndex(ks[|ks| - 1]) then [ks[|ks| - 1]] else []
  }

  /** The keys of `ks` that are not array indices, in insertion order. */
  function OtherKeys(ks: seq<string>): (r: seq<string>)
    ensures forall i :: 0 <= i < |r| ==> !IsArrayIndex(r[i])
  {
    if ks == [] then []
    else OtherKeys(ks[..|ks| - 1]) + if IsArrayIndex(ks[|ks| - 1]) then [] else [ks[|ks| - 1]]
  }

  /** Inserts an array-index key into a list of them kept in ascending numeric order. */
  function InsertByIndex(k: string, s: seq<string>): (r: seq<string>)
    requires IsArrayIndex(k) && SortedByIndex(s)
    ensures SortedByIndex(r)
    ensures multiset(r) == multiset(s) + multiset{k}
  {
    if s == [] then [k]
    else if IndexValue(k) <= IndexValue(s[0]) then
      ConsSorted(k, s);
      [k] + s
    else
      var t := InsertByIndex(k, s[1..]);
      assert s == [s[0]] + s[1..];
      InsertedAbove(k, s[0], s[1..], t);
      ConsSorted(s[0], t);
      assert multiset([s[0]] + t) == multiset{s[0]} + multiset(t);
      [s[0]] + t
  }

  /** A key no greater than the head of a sorted list can go in front of it. */
  lemma ConsSorted(k: string, s: seq<string>)
    requires IsArrayIndex(k) && SortedByIndex(s)
    requires s != [] ==> IndexValue(k) <= IndexValue(s[0])
    ensures SortedByIndex([k] + s)
  {
    var r := [k] + s;
    forall i, j | 0 <= i < j < |r|
      ensures IndexValue(r[i]) <= IndexValue(r[j])
    {
      if i > 0 {
        assert r[i] == s[i - 1] && r[j] == s[j - 1];
      } else {
        assert r[j] == s[j - 1];
      }
    }
  }

  /** Every key of `t`, a permutation of `k` and the keys of `rest`, is at least `low`. */
  lemma InsertedAbove(k: string, low: string, rest: seq<string>, t: seq<string>)
    requires IndexValue(low) < IndexValue(k)
    requires forall j :: 0 <= j < |rest| ==> IndexValue(low) <= IndexValue(rest[j])
    requires multiset(t) == multiset(rest) + multiset{k}
    ensures forall j :: 0 <= j < |t| ==> IndexValue(low) <= IndexValue(t[j])
  {
    forall j | 0 <= j < |t|
      ensures IndexValue(low) <= IndexValue(t[j])
    {
      assert t[j] in multiset(t);
      if t[j] != k {
        assert t[j] in multiset(rest);
      }
    }
  }

  /** Array-index keys in ascending numeric order. */
  function SortByIndex(s: seq<string>): (r: seq<string>)
    requires AllIndexKeys(s)
    ensures SortedByIndex(r)
    ensures multiset(r) == multiset(s)
  {
    if s == [] then []
    else
      assert s == s[..|s| - 1] + [s[|s| - 1]];
      InsertByIndex(s[|s| - 1], SortByIndex(s[..|s| - 1]))
  }

  /** The enumeration order of an object whose keys were inserted in the order `ks`. */
  function JsKeyOrder(ks: seq<string>): (r: seq<string>)
  {
    SortByIndex(IndexKeys(ks)) + OtherKeys(ks)
  }

  lemma {:induction false} KeysSplit(ks: seq<string>)
    ensures multiset(IndexKeys(ks)) + multiset(OtherKeys(ks)) == multiset(ks)
  {
    if ks != [] {
      var p, k := ks[..|ks| - 1], ks[|ks| - 1];
      KeysSplit(p);
      assert ks == p + [k];
      KeysSplitStep(p, k);
    }
  }

  lemma KeysSplitStep(p: seq<string>, k: string)
    requires multiset(IndexKeys(p)) + multiset(OtherKeys(p)) == multiset(p)
    ensures multiset(IndexKeys(p + [k])) + multiset(OtherKeys(p + [k])) == multiset(p + [k])
  {
    var ks := p + [k];
    assert ks[..|ks| - 1] == p;
    assert multiset(ks) == multiset(p) + multiset{k};
    if IsArrayIndex(k) {
      assert multiset(IndexKeys(ks)) == multiset(IndexKeys(p)) + multiset{k};
    } else {
      assert multiset(OtherKeys(ks)) == multiset(OtherKeys(p)) + multiset{k};
    }
  }


  /** The enumeration order is a permutation of the inserted keys. */
  lemma JsKeyOrderPermutes(ks: seq<string>)
    ensures multiset(JsKeyOrder(ks)) == multiset(ks)
    ensures |JsKeyOrder(ks)| == |ks|
    ensures forall x :: x in JsKeyOrder(ks) <==> x in ks
  {
    KeysSplit(ks);
    assert multiset(JsKeyOrder(ks)) == multiset(ks);
    assert |multiset(JsKeyOrder(ks))| == |multiset(ks)|;
    forall x
      ensures x in JsKeyOrder(ks) <==> x in ks
    {
      assert x in JsKeyOrder(ks) <==> x in multiset(JsKeyOrder(ks));
      assert x in ks <==> x in multiset(ks);
    }
  }

  /** Array-index keys come first, ascending; the other keys follow in insertion order. */
  lemma JsKeyOrderShape(ks: seq<string>)
    ensures var r, m := JsKeyOrder(ks), |IndexKeys(ks)|;
      && m <= |r|
      && SortedByIndex(r[..m])
      && r[m..] == OtherKeys(ks)
      && forall i :: m <= i < |r| ==> !IsArrayIndex(r[i])
  {
    var s := IndexKeys(ks);
    assert |multiset(SortByIndex(s))| == |multiset(s)|;
    assert JsKeyOrder(ks)[..|s|] == SortByIndex(s);
  }

  /** Without array-index keys the enumeration order is the insertion order. */
  lemma JsKeyOrderNoIndexKeys(ks: seq<string>)
    requires forall i :: 0 <= i < |ks| ==> !IsArrayIndex(ks[i])
    ensures JsKeyOrder(ks) == ks
  {
    NoIndexKeys(ks);
  }

  lemma {:induction false} NoIndexKeys(ks: seq<string>)
    requires forall i :: 0 <= i < |ks| ==> !IsArrayIndex(ks[i])
    ensures IndexKeys(ks) == [] && OtherKeys(ks) == ks
  {
    if ks != [] {
      NoIndexKeys(ks[..|ks| - 1]);
      assert ks == ks[..|ks| - 1] + [ks[|ks| - 1]];
    }
  }

  /** A distinct key list stays distinct when reordered. */
  lemma JsKeyOrderDistinct(ks: seq<string>)
    requires Distinct(ks)
    ensures Distinct(JsKeyOrder(ks))
  {
    JsKeyOrderPermutes(ks);
    PermutationKeepsDistinct(ks, JsKeyOrder(ks));
  }

  lemma PermutationKeepsDistinct<T>(s: seq<T>, t: seq<T>)
    requires Distinct(s) && multiset(s) == multiset(t)
    ensures Distinct(t)
  {
    DistinctCounts(s);
    forall i, j | 0 <= i < j < |t|
      ensures t[i] != t[j]
    {
      assert t == t[..i] + [t[i]] + t[i + 1..j] + [t[j]] + t[j + 1..];
      assert multiset(t)[t[i]] >= 1 + if t[j] == t[i] then 1 else 0;
    }
  }

  lemma {:induction false} DistinctCounts<T>(s: seq<T>)
    requires Distinct(s)
    ensures forall x :: multiset(s)[x] <= 1
  {
    if s != [] {
      var p := s[..|s| - 1];
      assert s == p + [s[|s| - 1]];
      DistinctCounts(p);
    }
  }

  /** A sum over the keys does not depend on their enumeration order. */
  lemma JsKeyOrderSum(f: string -> int, ks: seq<string>)
    ensures SumBy(f, JsKeyOrder(ks)) == SumBy(f, ks)
  {
    SumByConcat(f, SortByIndex(IndexKeys(ks)), OtherKeys(ks));
    SortSum(f, IndexKeys(ks));
    SplitSum(f, ks);
  }

  lemma {:induction false} SplitSum(f: string -> int, ks: seq<string>)
    ensures SumBy(f, IndexKeys(ks)) + SumBy(f, OtherKeys(ks)) == SumBy(f, ks)
  {
    if ks != [] {
      var p, x := ks[..|ks| - 1], ks[|ks| - 1];
      SplitSum(f, p);
      if IsArrayIndex(x) {
        assert OtherKeys(ks) == OtherKeys(p);
      } else {
        assert IndexKeys(ks) == IndexKeys(p);
      }
    }
  }

  lemma {:induction false} InsertSum(f: string -> int, k: string, s: seq<string>)
    requires IsArrayIndex(k) && SortedByIndex(s)
    ensures SumBy(f, InsertByIndex(k, s)) == f(k) + SumBy(f, s)
  {
    if s == [] {
      SumByCons(f, k, s);
    } else if IndexValue(k) <= IndexValue(s[0]) {
      SumByCons(f, k, s);
    } else {
      InsertSum(f, k, s[1..]);
      SumByCons(f, s[0], InsertByIndex(k, s[1..]));
      SumByCons(f, s[0], s[1..]);
      assert s == [s[0]] + s[1..];
    }
  }

  lemma {:induction false} SortSum(f: string -> int, s: seq<string>)
    requires AllIndexKeys(s)
    ensures SumBy(f, SortByIndex(s)) == SumBy(f, s)
  {
    if s != [] {
      var p := s[..|s| - 1];
      SortSum(f, p);
      InsertSum(f, s[|s| - 1], SortByIndex(p));
    }
  }
}
