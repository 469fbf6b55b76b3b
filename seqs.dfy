/** Sequences of keys: distinctness, first-occurrence deduplication and sums over keys. */
module Seqs {
  import opened Wrappers

  predicate Distinct<T(==)>(s: seq<T>)
  {
    forall i, j :: 0 <= i < j < |s| ==> s[i] != s[j]
  }

  /** Index of the first occurrence of `x` in `s`. */
  function FirstIndex<T(==)>(s: seq<T>, x: T): (k: nat)
    requires x in s
    ensures k < |s| && s[k] == x && x !in s[..k]
  {
    if s[0] == x then 0 else 1 + FirstIndex(s[1..], x)
  }

  lemma {:induction false} FirstIndexSnoc<T>(s: seq<T>, y: T, x: T)
    requires x in s
    ensures FirstIndex(s + [y], x) == FirstIndex(s, x)
  {
    if s[0] != x {
      assert (s + [y])[1..] == s[1..] + [y];
      FirstIndexSnoc(s[1..], y, x);
    }
  }

  /**
   * The distinct elements of `s` in the order of their first occurrence
   * (what JavaScript's `Array.from(new Set(s))` yields).
   */
  function Dedup<T(==)>(s: seq<T>): (r: seq<T>)
    ensures Distinct(r)
    ensures forall i :: 0 <= i < |r| ==> r[i] in s
    ensures forall i :: 0 <= i < |s| ==> s[i] in r
  {
    if s == [] then []
    else
      var r := Dedup(s[..|s| - 1]);
      if s[|s| - 1] in r then r else r + [s[|s| - 1]]
  }

  /** Appending one element extends the deduplicated list by it exactly when it is new. */
  lemma DedupSnoc<T>(s: seq<T>, x: T)
    ensures Dedup(s + [x]) == if x in s then Dedup(s) else Dedup(s) + [x]
  {
    assert (s + [x])[..|s|] == s;
  }

  /** Dedup keeps elements in the order of their first occurrence. */
  lemma {:induction false} DedupFirstOccurrenceOrder<T>(s: seq<T>)
    ensures forall i, j :: 0 <= i < j < |Dedup(s)| ==> FirstIndex(s, Dedup(s)[i]) < FirstIndex(s, Dedup(s)[j])
  {
    if s != [] {
      var p, x := s[..|s| - 1], s[|s| - 1];
      assert s == p + [x];
      DedupFirstOccurrenceOrder(p);
      DedupSnoc(p, x);
      var r := Dedup(s);
      forall i, j | 0 <= i < j < |r|
        ensures FirstIndex(s, r[i]) < FirstIndex(s, r[j])
      {
        FirstIndexSnoc(p, x, r[i]);
        if j < |Dedup(p)| {
          FirstIndexSnoc(p, x, r[j]);
        } else {
          assert r[j] == x && x !in p;
          assert FirstIndex(s, x) == |p| by {
            assert s[..|p|] == p;
          }
        }
      }
    }
  }

  /** `m[k] || 0`: a missing key reads as 0. */
  function MapGet<K>(m: map<K, int>, k: K): int
  {
    if k in m then m[k] else 0
  }

  /** The sum of `f` over the keys `ks`. */
  function SumBy<T>(f: T -> int, ks: seq<T>): int
  {
    if ks == [] then 0 else SumBy(f, ks[..|ks| - 1]) + f(ks[|ks| - 1])
  }

  lemma {:induction false} SumByConcat<T>(f: T -> int, a: seq<T>, b: seq<T>)
    ensures SumBy(f, a + b) == SumBy(f, a) + SumBy(f, b)
  {
    if b == [] {
      assert a + b == a;
    } else {
      assert (a + b)[..|a + b| - 1] == a + b[..|b| - 1];
      SumByConcat(f, a, b[..|b| - 1]);
    }
  }

  lemma SumByCons<T>(f: T -> int, x: T, s: seq<T>)
    ensures SumBy(f, [x] + s) == f(x) + SumBy(f, s)
  {
    SumByConcat(f, [x], s);
    assert [x][..0] == [];
  }

  /** Two functions that agree on every key have the same sum over the keys. */
  lemma {:induction false} SumByAgree<T>(f: T -> int, g: T -> int, ks: seq<T>)
    requires forall k :: k in ks ==> f(k) == g(k)
    ensures SumBy(f, ks) == SumBy(g, ks)
  {
    if ks != [] {
      SumByAgree(f, g, ks[..|ks| - 1]);
    }
  }

  /** A pointwise smaller function has a smaller sum. */
  lemma {:induction false} SumByMono<T>(f: T -> int, g: T -> int, ks: seq<T>)
    requires forall k :: k in ks ==> f(k) <= g(k)
    ensures SumBy(f, ks) <= SumBy(g, ks)
  {
    if ks != [] {
      SumByMono(f, g, ks[..|ks| - 1]);
    }
  }

  /** Sums over two lists that match element by element are equal. */
  lemma {:induction false} SumByMatch<A, B>(f: A -> int, xs: seq<A>, g: B -> int, ys: seq<B>)
    requires |xs| == |ys|
    requires forall i :: 0 <= i < |xs| ==> f(xs[i]) == g(ys[i])
    ensures SumBy(f, xs) == SumBy(g, ys)
  {
    if xs != [] {
      SumByMatch(f, xs[..|xs| - 1], g, ys[..|ys| - 1]);
    }
  }

  /** Raising `f` by `d` at one key of a distinct key list raises the sum by `d`. */
  lemma {:induction false} SumByBump<T>(f: T -> int, g: T -> int, ks: seq<T>, k: T, d: int)
    requires Distinct(ks) && k in ks
    requires forall j :: g(j) == if j == k then f(j) + d else f(j)
    ensures SumBy(g, ks) == SumBy(f, ks) + d
  {
    var p, last := ks[..|ks| - 1], ks[|ks| - 1];
    if last == k {
      assert k !in p;
      SumByAgree(f, g, p);
    } else {
      SumByBump(f, g, p, k, d);
    }
  }

  /** The keys that `key` assigns to the elements of `xs`, skipping the elements it assigns none. */
  function KeyList<T, K>(key: T -> Option<K>, xs: seq<T>): seq<K>
  {
    if xs == [] then []
    else
      var x := xs[|xs| - 1];
      KeyList(key, xs[..|xs| - 1]) + if key(x).Some? then [key(x).value] else []
  }

  /** The total weight of the elements of `xs` whose key is `k`. */
  function Bucket<T, K(==)>(key: T -> Option<K>, w: T -> int, xs: seq<T>, k: K): int
  {
    if xs == [] then 0
    else
      var x := xs[|xs| - 1];
      Bucket(key, w, xs[..|xs| - 1], k) + if key(x) == Some(k) then w(x) else 0
  }

  /** The bucket weights of `xs` as a function of the key. */
  function BucketOf<T, K(==)>(key: T -> Option<K>, w: T -> int, xs: seq<T>): K -> int
  {
    k => Bucket(key, w, xs, k)
  }

  /** The weight of an element counted only when it has a key. */
  function KeyedWeight<T, K>(key: T -> Option<K>, w: T -> int): T -> int
  {
    x => if key(x).Some? then w(x) else 0
  }

  lemma {:induction false} BucketAbsent<T, K>(key: T -> Option<K>, w: T -> int, xs: seq<T>, k: K)
    requires k !in KeyList(key, xs)
    ensures Bucket(key, w, xs, k) == 0
  {
    if xs != [] {
      var p := xs[..|xs| - 1];
      assert KeyList(key, p) <= KeyList(key, xs);
      BucketAbsent(key, w, p, k);
    }
  }

  /**
   * Splitting a list into buckets by key loses no weight: the buckets of the
   * distinct keys add up to the weight of all keyed elements.
   */
  lemma {:induction false} BucketsPartition<T, K>(key: T -> Option<K>, w: T -> int, xs: seq<T>)
    ensures SumBy(BucketOf(key, w, xs), Dedup(KeyList(key, xs))) == SumBy(KeyedWeight(key, w), xs)
  {
    if xs != [] {
      var p, x := xs[..|xs| - 1], xs[|xs| - 1];
      BucketsPartition(key, w, p);
      assert xs == p + [x];
      BucketsStep(key, w, p, x);
    }
  }

  /** One more element moves exactly its own weight into its own bucket. */
  lemma BucketsStep<T, K>(key: T -> Option<K>, w: T -> int, p: seq<T>, x: T)
    ensures SumBy(BucketOf(key, w, p + [x]), Dedup(KeyList(key, p + [x])))
         == SumBy(BucketOf(key, w, p), Dedup(KeyList(key, p))) + KeyedWeight(key, w)(x)
  {
    var xs := p + [x];
    assert xs[..|xs| - 1] == p;
    var before, after := BucketOf(key, w, p), BucketOf(key, w, xs);
    var d := Dedup(KeyList(key, p));
    if key(x).Some? {
      var kx := key(x).value;
      assert KeyList(key, xs) == KeyList(key, p) + [kx];
      DedupSnoc(KeyList(key, p), kx);
      if kx in KeyList(key, p) {
        SumByBump(before, after, d, kx, w(x));
      } else {
        NewBucket(key, w, p, x);
      }
    } else {
      assert KeyList(key, xs) == KeyList(key, p);
      SumByAgree(before, after, d);
    }
  }

  lemma NewBucket<T, K>(key: T -> Option<K>, w: T -> int, p: seq<T>, x: T)
    requires key(x).Some? && key(x).value !in KeyList(key, p)
    ensures SumBy(BucketOf(key, w, p + [x]), Dedup(KeyList(key, p)) + [key(x).value])
         == SumBy(BucketOf(key, w, p), Dedup(KeyList(key, p))) + w(x)
  {
    var xs, kx := p + [x], key(x).value;
    assert xs[..|xs| - 1] == p;
    var before, after := BucketOf(key, w, p), BucketOf(key, w, xs);
    var d := Dedup(KeyList(key, p));
    SumByAgree(before, after, d);
    BucketAbsent(key, w, p, kx);
    assert (d + [kx])[..|d|] == d;
  }
}
