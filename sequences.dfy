/** Small facts about sequences and multisets, stated once and used by the other modules. */
module Sequences {

  /** `a + b` starts with `a`'s head, then goes on with `a`'s tail and `b`. */
  lemma AppendTail<T>(a: seq<T>, b: seq<T>)
    requires |a| > 0
    ensures (a + b)[0] == a[0] && (a + b)[1..] == a[1..] + b
  {
  }

  /** Cutting a sequence around position `k`. */
  lemma Decompose<T>(b: seq<T>, k: nat)
    requires k < |b|
    ensures b == b[..k] + [b[k]] + b[k + 1..]
  {
  }

  lemma MultisetOfConcat3<T>(x: seq<T>, y: seq<T>, z: seq<T>)
    ensures multiset(x + y + z) == multiset(x) + multiset(y) + multiset(z)
  {
  }

  /** Removing the same element from two permutations of each other leaves permutations. */
  lemma MultisetRemoveHead<T>(a: seq<T>, b: seq<T>, k: nat)
    requires multiset(a) == multiset(b) && 0 < |a| && k < |b| && b[k] == a[0]
    ensures multiset(a[1..]) == multiset(b[..k] + b[k + 1..])
  {
    var rest := b[..k] + b[k + 1..];
    assert b == b[..k] + [b[k]] + b[k + 1..];
    assert multiset(b) == multiset(b[..k]) + multiset([b[k]]) + multiset(b[k + 1..]);
    assert multiset(rest) == multiset(b[..k]) + multiset(b[k + 1..]);
    assert a == [a[0]] + a[1..];
    assert multiset(a) == multiset([a[0]]) + multiset(a[1..]);
    forall y ensures multiset(a[1..])[y] == multiset(rest)[y] {
      assert multiset(a)[y] == multiset(b)[y];
    }
  }

  /** Taking out the element at `j`. */
  lemma MultisetRemoveAt<T>(xs: seq<T>, j: nat)
    requires j < |xs|
    ensures multiset(xs) == multiset(xs[..j] + xs[j + 1..]) + multiset{xs[j]}
  {
    assert xs == xs[..j] + [xs[j]] + xs[j + 1..];
  }

  lemma ConcatAssoc<T>(a: seq<T>, b: seq<T>, c: seq<T>)
    ensures a + (b + c) == (a + b) + c
  {
  }

  lemma TakeAll<T>(s: seq<T>)
    ensures s[..|s|] == s
  {
  }

  lemma PrefixOfPrefix<T>(s: seq<T>, c: nat)
    requires c < |s|
    ensures s[..c + 1][..c] == s[..c]
  {
  }

  /** Concatenation of a sequence of sequences: `flatMap { $0 }`. */
  function Flatten<T>(xss: seq<seq<T>>): seq<T>
  {
    if |xss| == 0 then [] else Flatten(xss[..|xss| - 1]) + xss[|xss| - 1]
  }

  lemma {:induction false} FlattenSplit<T>(xss: seq<seq<T>>, k: nat)
    requires k <= |xss|
    ensures Flatten(xss) == Flatten(xss[..k]) + Flatten(xss[k..])
    decreases |xss|
  {
    if k < |xss| {
      var n := |xss|;
      FlattenSplit(xss[..n - 1], k);
      assert xss[..n - 1][..k] == xss[..k];
      assert xss[k..][..|xss[k..]| - 1] == xss[..n - 1][k..];
    } else {
      assert xss[..k] == xss;
      assert xss[k..] == [];
    }
  }

  lemma FlattenCons<T>(x: seq<T>, xss: seq<seq<T>>)
    ensures Flatten([x] + xss) == x + Flatten(xss)
  {
    var yss := [x] + xss;
    FlattenSplit(yss, 1);
    assert yss[..1] == [x];
    assert [x][..0] == [];
    assert yss[1..] == xss;
  }

  /** Appending `x` to one of the sequences adds `x` to the flattened multiset. */
  lemma FlattenUpdateSnoc<T>(gs: seq<seq<T>>, j: nat, x: T)
    requires j < |gs|
    ensures multiset(Flatten(gs[j := gs[j] + [x]])) == multiset(Flatten(gs)) + multiset{x}
  {
    var hs := gs[j := gs[j] + [x]];
    FlattenSplit(gs, j);
    FlattenSplit(hs, j);
    assert hs[..j] == gs[..j];
    assert gs[j..] == [gs[j]] + gs[j + 1..];
    assert hs[j..] == [gs[j] + [x]] + gs[j + 1..];
    FlattenCons(gs[j], gs[j + 1..]);
    FlattenCons(gs[j] + [x], gs[j + 1..]);
  }

  /** An element of the concatenation lies in one of the sequences, and every such element is in it. */
  lemma {:induction false} FlattenMembers<T>(xss: seq<seq<T>>, x: T)
    ensures x in Flatten(xss) <==> exists g :: g in xss && x in g
    decreases |xss|
  {
    if |xss| > 0 {
      var p := xss[..|xss| - 1];
      FlattenMembers(p, x);
      assert xss == p + [xss[|xss| - 1]];
    }
  }

  /** A sequence holding two different values has at least two elements. */
  lemma TwoMembers<T>(s: seq<T>, a: T, b: T)
    requires a in s && b in s && a != b
    ensures |s| >= 2
  {
  }
}
