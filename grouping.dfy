/**
  Dictionary bucketing, the idiom every stage of the detector uses:
  `for x in xs { dict[key, default: []].append(x) }` followed by
  `dict.values.filter { $0.count >= 2 }`.  A key function answering `None`
  skips the element, like a `guard … else { continue }` before the append.
  Swift leaves the order of `dict.values` open; the model lists the buckets
  in the order their keys were first inserted.
 */
module Grouping {
  import opened Wrappers
  import opened Sequences

  /** The bucket `dict[k]` after every element of `xs` was filed: those with key `k`, in their order. */
  function Bucket<T, K(==)>(xs: seq<T>, key: T -> Option<K>, k: K): seq<T>
  {
    if |xs| == 0 then []
    else Bucket(xs[..|xs| - 1], key, k) + (if key(xs[|xs| - 1]) == Some(k) then [xs[|xs| - 1]] else [])
  }

  /** The keys of the dictionary, in the order they were first inserted. */
  function KeysOf<T, K(==)>(xs: seq<T>, key: T -> Option<K>): seq<K>
  {
    if |xs| == 0 then []
    else
      var ks := KeysOf(xs[..|xs| - 1], key);
      var o := key(xs[|xs| - 1]);
      if o.None? || o.value in ks then ks else ks + [o.value]
  }

  /** The elements of `xs` that get filed at all. */
  function Keyed<T, K>(xs: seq<T>, key: T -> Option<K>): seq<T>
  {
    if |xs| == 0 then []
    else Keyed(xs[..|xs| - 1], key) + (if key(xs[|xs| - 1]).Some? then [xs[|xs| - 1]] else [])
  }

  /** `dict.values`, listed in key order. */
  function Values<T, K>(keys: seq<K>, dict: map<K, seq<T>>): (vs: seq<seq<T>>)
    requires forall k :: k in keys ==> k in dict
    ensures |vs| == |keys|
  {
    seq(|keys|, i requires 0 <= i < |keys| => dict[keys[i]])
  }

  /** The buckets of `xs`, in key order. */
  function Groups<T, K(==)>(xs: seq<T>, key: T -> Option<K>): (gs: seq<seq<T>>)
    ensures |gs| == |KeysOf(xs, key)|
  {
    var ks := KeysOf(xs, key);
    seq(|ks|, i requires 0 <= i < |ks| => Bucket(xs, key, ks[i]))
  }

  /** `.filter { $0.count >= 2 }` */
  function AtLeastTwo<T>(gs: seq<seq<T>>): seq<seq<T>>
  {
    if |gs| == 0 then []
    else AtLeastTwo(gs[..|gs| - 1]) + (if |gs[|gs| - 1]| >= 2 then [gs[|gs| - 1]] else [])
  }

  /** The buckets holding two or more elements: the potential duplicates. */
  function MultiGroups<T, K(==)>(xs: seq<T>, key: T -> Option<K>): seq<seq<T>>
  {
    AtLeastTwo(Groups(xs, key))
  }

  /** No element lies in two of the sequences. */
  ghost predicate Disjoint<T>(gs: seq<seq<T>>)
  {
    forall i, j, x :: 0 <= i < |gs| && 0 <= j < |gs| && i != j && x in gs[i] ==> x !in gs[j]
  }

  // ---------------------------------------------------------------------
  // Facts about the buckets

  /** One more element: the keys and filed elements of `xs + [x]` in terms of those of `xs`. */
  lemma Snoc<T, K>(xs: seq<T>, x: T, key: T -> Option<K>)
    ensures KeysOf(xs + [x], key) ==
              if key(x).None? || key(x).value in KeysOf(xs, key) then KeysOf(xs, key) else KeysOf(xs, key) + [key(x).value]
    ensures Keyed(xs + [x], key) == Keyed(xs, key) + (if key(x).Some? then [x] else [])
  {
    assert (xs + [x])[..|xs|] == xs;
  }

  /** One more element: the bucket `k` of `xs + [x]` in terms of that of `xs`. */
  lemma SnocBucket<T, K>(xs: seq<T>, x: T, key: T -> Option<K>, k: K)
    ensures Bucket(xs + [x], key, k) == Bucket(xs, key, k) + (if key(x) == Some(k) then [x] else [])
  {
    assert (xs + [x])[..|xs|] == xs;
  }

  /** A bucket holds exactly the elements filed under its key. */
  lemma {:induction false} BucketMembers<T, K>(xs: seq<T>, key: T -> Option<K>, k: K, x: T)
    ensures x in Bucket(xs, key, k) <==> x in xs && key(x) == Some(k)
    decreases |xs|
  {
    if |xs| > 0 {
      var p := xs[..|xs| - 1];
      BucketMembers(p, key, k, x);
      SnocBucket(p, xs[|xs| - 1], key, k);
      assert xs == p + [xs[|xs| - 1]];
    }
  }

  /** A key was inserted exactly when its bucket is not empty. */
  lemma {:induction false} KeysOfMembers<T, K>(xs: seq<T>, key: T -> Option<K>, k: K)
    ensures k in KeysOf(xs, key) <==> |Bucket(xs, key, k)| > 0
    decreases |xs|
  {
    if |xs| > 0 {
      var p := xs[..|xs| - 1];
      KeysOfMembers(p, key, k);
      Snoc(p, xs[|xs| - 1], key);
      SnocBucket(p, xs[|xs| - 1], key, k);
      assert xs == p + [xs[|xs| - 1]];
    }
  }

  /** No key is inserted twice. */
  lemma {:induction false} KeysOfDistinct<T, K>(xs: seq<T>, key: T -> Option<K>, i: nat, j: nat)
    requires i < j < |KeysOf(xs, key)|
    ensures KeysOf(xs, key)[i] != KeysOf(xs, key)[j]
    decreases |xs|
  {
    var p, x := xs[..|xs| - 1], xs[|xs| - 1];
    assert xs == p + [x];
    Snoc(p, x, key);
    var ks := KeysOf(p, key);
    if j < |ks| {
      KeysOfDistinct(p, key, i, j);
    } else {
      assert KeysOf(xs, key)[i] == ks[i];
    }
  }

  /** Every element of a bucket carries the bucket's key. */
  lemma BucketKeys<T, K>(xs: seq<T>, key: T -> Option<K>, k: K)
    ensures forall y :: y in Bucket(xs, key, k) ==> key(y) == Some(k)
  {
    forall y | y in Bucket(xs, key, k) {
      BucketKeysAt(xs, key, k, y);
    }
  }

  lemma {:induction false} BucketKeysAt<T, K>(xs: seq<T>, key: T -> Option<K>, k: K, y: T)
    requires y in Bucket(xs, key, k)
    ensures key(y) == Some(k)
    decreases |xs|
  {
    var p := xs[..|xs| - 1];
    if y !in Bucket(p, key, k) {
      assert y == xs[|xs| - 1];
    } else {
      BucketKeysAt(p, key, k, y);
    }
  }

  /** The dictionary order of the keys does not matter to the buckets: `Values` of the built dictionary are the `Groups`. */
  lemma ValuesAreGroups<T, K>(xs: seq<T>, key: T -> Option<K>, keys: seq<K>, dict: map<K, seq<T>>)
    requires keys == KeysOf(xs, key)
    requires forall k :: k in dict <==> k in keys
    requires forall k :: k in dict ==> dict[k] == Bucket(xs, key, k)
    ensures Values(keys, dict) == Groups(xs, key)
  {
  }

  /** Buckets of distinct keys have no element in common. */
  lemma GroupsDisjoint<T, K>(xs: seq<T>, key: T -> Option<K>)
    ensures Disjoint(Groups(xs, key))
  {
    var gs, ks := Groups(xs, key), KeysOf(xs, key);
    forall i, j, x | 0 <= i < |gs| && 0 <= j < |gs| && i != j && x in gs[i]
      ensures x !in gs[j]
    {
      BucketKeys(xs, key, ks[i]);
      BucketKeys(xs, key, ks[j]);
      if i < j { KeysOfDistinct(xs, key, i, j); } else { KeysOfDistinct(xs, key, j, i); }
    }
  }

  /** An element without a key leaves the buckets as they are. */
  lemma GroupsSnocUnkeyed<T, K>(p: seq<T>, x: T, key: T -> Option<K>)
    requires key(x).None?
    ensures Groups(p + [x], key) == Groups(p, key)
  {
    Snoc(p, x, key);
    var a, b, ks := Groups(p + [x], key), Groups(p, key), KeysOf(p, key);
    forall i | 0 <= i < |a| ensures a[i] == b[i] {
      SnocBucket(p, x, key, ks[i]);
    }
  }

  /** An element with a key already present joins that key's bucket. */
  lemma GroupsSnocOld<T, K>(p: seq<T>, x: T, key: T -> Option<K>, j: nat)
    requires j < |KeysOf(p, key)| && key(x) == Some(KeysOf(p, key)[j])
    ensures Groups(p + [x], key) == Groups(p, key)[j := Groups(p, key)[j] + [x]]
  {
    Snoc(p, x, key);
    var a, b, ks := Groups(p + [x], key), Groups(p, key), KeysOf(p, key);
    forall i | 0 <= i < |a| ensures a[i] == b[j := b[j] + [x]][i] {
      SnocBucket(p, x, key, ks[i]);
      if i != j { KeysOfDistinctAll(p, key, j); }
    }
  }

  lemma KeysOfDistinctAll<T, K>(xs: seq<T>, key: T -> Option<K>, j: nat)
    requires j < |KeysOf(xs, key)|
    ensures forall i :: 0 <= i < |KeysOf(xs, key)| && i != j ==> KeysOf(xs, key)[i] != KeysOf(xs, key)[j]
  {
    forall i | 0 <= i < |KeysOf(xs, key)| && i != j ensures KeysOf(xs, key)[i] != KeysOf(xs, key)[j] {
      if i < j { KeysOfDistinct(xs, key, i, j); } else { KeysOfDistinct(xs, key, j, i); }
    }
  }

  /** An element with a new key opens a bucket of its own at the end. */
  lemma GroupsSnocNew<T, K>(p: seq<T>, x: T, key: T -> Option<K>)
    requires key(x).Some? && key(x).value !in KeysOf(p, key)
    ensures Groups(p + [x], key) == Groups(p, key) + [[x]]
  {
    Snoc(p, x, key);
    var a, b, ks := Groups(p + [x], key), Groups(p, key), KeysOf(p, key);
    var k := key(x).value;
    forall i | 0 <= i < |a| ensures a[i] == (b + [[x]])[i] {
      if i < |ks| {
        SnocBucket(p, x, key, ks[i]);
      } else {
        SnocBucket(p, x, key, k);
        KeysOfMembers(p, key, k);
      }
    }
  }

  /** The buckets hold every filed element once: they are a partition of `Keyed(xs, key)`. */
  lemma {:induction false} GroupsPartition<T, K>(xs: seq<T>, key: T -> Option<K>)
    ensures multiset(Flatten(Groups(xs, key))) == multiset(Keyed(xs, key))
    decreases |xs|
  {
    if |xs| > 0 {
      var p, x := xs[..|xs| - 1], xs[|xs| - 1];
      assert xs == p + [x];
      GroupsPartition(p, key);
      Snoc(p, x, key);
      var gp, ks := Groups(p, key), KeysOf(p, key);
      if key(x).None? {
        GroupsSnocUnkeyed(p, x, key);
      } else if key(x).value in ks {
        var j :| 0 <= j < |ks| && ks[j] == key(x).value;
        GroupsSnocOld(p, x, key, j);
        FlattenUpdateSnoc(gp, j, x);
      } else {
        GroupsSnocNew(p, x, key);
        assert (gp + [[x]])[..|gp|] == gp;
      }
    }
  }

  // ---------------------------------------------------------------------
  // Facts about the `count >= 2` filter

  /** The filter keeps exactly the sequences of two or more elements. */
  lemma {:induction false} AtLeastTwoMembers<T>(gs: seq<seq<T>>, g: seq<T>)
    ensures g in AtLeastTwo(gs) <==> g in gs && |g| >= 2
    decreases |gs|
  {
    if |gs| > 0 {
      var p := gs[..|gs| - 1];
      AtLeastTwoMembers(p, g);
      assert gs == p + [gs[|gs| - 1]];
    }
  }

  /** Dropping sequences keeps them disjoint. */
  lemma {:induction false} AtLeastTwoDisjoint<T>(gs: seq<seq<T>>)
    requires Disjoint(gs)
    ensures Disjoint(AtLeastTwo(gs))
    decreases |gs|
  {
    if |gs| > 0 {
      var p, g := gs[..|gs| - 1], gs[|gs| - 1];
      assert Disjoint(p) by {
        forall i, j, x | 0 <= i < |p| && 0 <= j < |p| && i != j && x in p[i] ensures x !in p[j] {
          assert p[i] == gs[i] && p[j] == gs[j];
        }
      }
      AtLeastTwoDisjoint(p);
      var r := AtLeastTwo(p);
      if |g| >= 2 {
        forall i, x | 0 <= i < |r| && x in r[i] ensures x !in g {
          assert r[i] in r;
          AtLeastTwoMembers(p, r[i]);
          var i' :| 0 <= i' < |p| && p[i'] == r[i];
          assert gs[i'] == r[i] && gs[|gs| - 1] == g;
        }
        DisjointSnoc(r, g);
      }
    }
  }

  lemma DisjointSnoc<T>(r: seq<seq<T>>, g: seq<T>)
    requires Disjoint(r)
    requires forall i, x :: 0 <= i < |r| && x in r[i] ==> x !in g
    ensures Disjoint(r + [g])
  {
    var s := r + [g];
    forall i, j, x | 0 <= i < |s| && 0 <= j < |s| && i != j && x in s[i] ensures x !in s[j] {
      if i < |r| && j < |r| {
        assert s[i] == r[i] && s[j] == r[j];
      } else if i < |r| {
        assert s[i] == r[i] && s[j] == g;
      } else {
        assert s[i] == g && s[j] == r[j];
      }
    }
  }

  /**
    Each potential-duplicate group is a whole bucket with at least two
    elements, all filed under one key.
   */
  lemma MultiGroupsSound<T, K>(xs: seq<T>, key: T -> Option<K>, g: seq<T>)
    requires g in MultiGroups(xs, key)
    ensures |g| >= 2 && key(g[0]).Some? && g == Bucket(xs, key, key(g[0]).value)
    ensures forall y :: y in g ==> y in xs && key(y) == key(g[0])
  {
    AtLeastTwoMembers(Groups(xs, key), g);
    var ks := KeysOf(xs, key);
    var i :| 0 <= i < |ks| && Groups(xs, key)[i] == g;
    BucketKeys(xs, key, ks[i]);
    assert g[0] in g;
    forall y | y in g ensures y in xs {
      BucketMembers(xs, key, ks[i], y);
    }
  }

  /** Every filed element whose bucket has a second element lies in a potential-duplicate group: its bucket. */
  lemma MultiGroupsComplete<T, K>(xs: seq<T>, key: T -> Option<K>, x: T)
    requires x in xs && key(x).Some? && |Bucket(xs, key, key(x).value)| >= 2
    ensures Bucket(xs, key, key(x).value) in MultiGroups(xs, key)
  {
    var k := key(x).value;
    KeysOfMembers(xs, key, k);
    var ks := KeysOf(xs, key);
    var i :| 0 <= i < |ks| && ks[i] == k;
    assert Groups(xs, key)[i] == Bucket(xs, key, k);
    AtLeastTwoMembers(Groups(xs, key), Bucket(xs, key, k));
  }

  /** No element lies in two potential-duplicate groups. */
  lemma MultiGroupsDisjoint<T, K>(xs: seq<T>, key: T -> Option<K>)
    ensures Disjoint(MultiGroups(xs, key))
  {
    GroupsDisjoint(xs, key);
    AtLeastTwoDisjoint(Groups(xs, key));
  }

  /** Two different elements with the same key share a potential-duplicate group: their bucket. */
  lemma SharedKeyGrouped<T, K>(xs: seq<T>, key: T -> Option<K>, a: T, b: T)
    requires a in xs && b in xs && a != b && key(a).Some? && key(a) == key(b)
    ensures Bucket(xs, key, key(a).value) in MultiGroups(xs, key)
    ensures a in Bucket(xs, key, key(a).value) && b in Bucket(xs, key, key(a).value)
  {
    var k := key(a).value;
    BucketMembers(xs, key, k, a);
    BucketMembers(xs, key, k, b);
    TwoMembers(Bucket(xs, key, k), a, b);
    MultiGroupsComplete(xs, key, a);
  }

  // ---------------------------------------------------------------------
  // The loop

  /** `for x in xs { dict[key(x), default: []].append(x) }`, recording the keys as they are inserted. */
  method BuildDictionary<T, K(==)>(xs: seq<T>, key: T -> Option<K>) returns (keys: seq<K>, dict: map<K, seq<T>>)
    ensures keys == KeysOf(xs, key)
    ensures forall k :: k in dict <==> k in keys
    ensures forall k :: k in dict ==> dict[k] == Bucket(xs, key, k)
  {
    keys, dict := [], map[];
    var i := 0;
    while i < |xs|
      invariant 0 <= i <= |xs|
      invariant keys == KeysOf(xs[..i], key)
      invariant forall k :: k in dict <==> k in keys
      invariant forall k :: k in dict ==> dict[k] == Bucket(xs[..i], key, k)
    {
      var x := xs[i];
      assert xs[..i + 1] == xs[..i] + [x];
      Snoc(xs[..i], x, key);
      forall k { SnocBucket(xs[..i], x, key, k); }
      var o := key(x);
      if o.Some? {
        var k := o.value;
        if k in dict {
          dict := dict[k := dict[k] + [x]];
        } else {
          KeysOfMembers(xs[..i], key, k);
          dict := dict[k := [x]];
          keys := keys + [k];
        }
      }
      i := i + 1;
    }
    TakeAll(xs);
  }

  /** `for (_, vs) in dict where vs.count >= 2 { result.append(vs) }`, with the values in key order. */
  method AppendAtLeastTwo<T>(result: seq<seq<T>>, values: seq<seq<T>>) returns (r: seq<seq<T>>)
    ensures r == result + AtLeastTwo(values)
  {
    r := result;
    var i := 0;
    while i < |values|
      invariant 0 <= i <= |values|
      invariant r == result + AtLeastTwo(values[..i])
    {
      assert values[..i + 1][..i] == values[..i];
      if |values[i]| >= 2 {
        r := r + [values[i]];
      }
      i := i + 1;
    }
    TakeAll(values);
  }
}
