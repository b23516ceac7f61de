/** Grouping a list by a key into an insertion-ordered map, the way the HTML
    reporter fills its JavaScript `Map`s: `m.set(k, [...(m.get(k) ?? []), x])`
    keeps a key at the position of its first `set`, so groups come out in
    first-occurrence order and each group in input order. The map is an
    association list of `(key, group)` pairs. */
module Grouping {
  import opened Text

  /** The keys of `xs`, each once, in order of first occurrence. */
  function Keys<V>(xs: seq<V>, key: V -> string): (ks: seq<string>)
    ensures |ks| <= |xs|
  {
    if xs == [] then []
    else
      var ks := Keys(xs[..|xs| - 1], key);
      var k := key(xs[|xs| - 1]);
      if k in ks then ks else ks + [k]
  }

  /** The elements of `xs` whose key is `k`, in input order. */
  function Filter<V>(xs: seq<V>, key: V -> string, k: string): (r: seq<V>)
    ensures |r| <= |xs|
  {
    if xs == [] then []
    else Filter(xs[..|xs| - 1], key, k) + (if key(xs[|xs| - 1]) == k then [xs[|xs| - 1]] else [])
  }

  /** What the grouping loop leaves in the map. */
  function Groups<V>(xs: seq<V>, key: V -> string): (gs: seq<(string, seq<V>)>)
    ensures |gs| == |Keys(xs, key)|
  {
    var ks := Keys(xs, key);
    seq(|ks|, j requires 0 <= j < |ks| => (ks[j], Filter(xs, key, ks[j])))
  }

  /** The groups' elements, one group after another. */
  function Flatten<V>(gs: seq<(string, seq<V>)>): seq<V> {
    if gs == [] then [] else Flatten(gs[..|gs| - 1]) + gs[|gs| - 1].1
  }

  predicate DistinctKeys(ks: seq<string>) {
    forall i, j :: 0 <= i < j < |ks| ==> ks[i] != ks[j]
  }

  /** The grouping loop: one pass over `xs`, looking each key up in the map. */
  method GroupBy<V>(xs: seq<V>, key: V -> string) returns (groups: seq<(string, seq<V>)>)
    ensures groups == Groups(xs, key)
  {
    groups := [];
    var i := 0;
    while i < |xs|
      invariant 0 <= i <= |xs|
      invariant groups == Groups(xs[..i], key)
    {
      var x := xs[i];
      var k := key(x);
      assert xs[..i + 1] == xs[..i] + [x];
      var j := 0;
      while j < |groups| && groups[j].0 != k
        invariant 0 <= j <= |groups|
        invariant forall j' :: 0 <= j' < j ==> groups[j'].0 != k
      {
        j := j + 1;
      }
      if j < |groups| {
        GroupsSnocExisting(xs[..i], x, key, j);
        groups := groups[j := (k, groups[j].1 + [x])];
      } else {
        assert k !in Keys(xs[..i], key) by {
          forall j' | 0 <= j' < |groups|
            ensures Keys(xs[..i], key)[j'] != k
          {
            assert groups[j'].0 == Keys(xs[..i], key)[j'];
          }
        }
        GroupsSnocNew(xs[..i], x, key);
        groups := groups + [(k, [x])];
      }
      i := i + 1;
    }
    assert xs[..|xs|] == xs;
  }

  lemma {:induction false} KeysDistinct<V>(xs: seq<V>, key: V -> string)
    ensures DistinctKeys(Keys(xs, key))
  {
    if xs != [] {
      KeysDistinct(xs[..|xs| - 1], key);
    }
  }

  lemma FilterSnoc<V>(xs: seq<V>, x: V, key: V -> string, k: string)
    ensures Filter(xs + [x], key, k) == Filter(xs, key, k) + (if key(x) == k then [x] else [])
  {
    assert (xs + [x])[..|xs|] == xs;
  }

  lemma KeysSnoc<V>(xs: seq<V>, x: V, key: V -> string)
    ensures Keys(xs + [x], key) == if key(x) in Keys(xs, key) then Keys(xs, key) else Keys(xs, key) + [key(x)]
  {
    assert (xs + [x])[..|xs|] == xs;
  }

  lemma GroupsSnocExisting<V>(xs: seq<V>, x: V, key: V -> string, j: nat)
    requires j < |Keys(xs, key)| && Keys(xs, key)[j] == key(x)
    ensures Groups(xs + [x], key) == Groups(xs, key)[j := (key(x), Groups(xs, key)[j].1 + [x])]
  {
    KeysSnoc(xs, x, key);
    KeysDistinct(xs, key);
    var ks := Keys(xs, key);
    var gs, gs' := Groups(xs, key), Groups(xs + [x], key);
    var want := gs[j := (key(x), gs[j].1 + [x])];
    assert Keys(xs + [x], key) == ks;
    forall j' | 0 <= j' < |ks|
      ensures gs'[j'] == want[j']
    {
      FilterSnoc(xs, x, key, ks[j']);
      assert gs'[j'] == (ks[j'], Filter(xs + [x], key, ks[j']));
      assert gs[j'] == (ks[j'], Filter(xs, key, ks[j']));
      if j' != j {
        assert ks[j'] != key(x);
        assert Filter(xs, key, ks[j']) + [] == Filter(xs, key, ks[j']);
      }
    }
    assert |gs'| == |want|;
  }

  lemma GroupsSnocNew<V>(xs: seq<V>, x: V, key: V -> string)
    requires key(x) !in Keys(xs, key)
    ensures Groups(xs + [x], key) == Groups(xs, key) + [(key(x), [x])]
  {
    KeysSnoc(xs, x, key);
    var ks := Keys(xs, key);
    var gs, gs' := Groups(xs, key), Groups(xs + [x], key);
    assert Keys(xs + [x], key) == ks + [key(x)];
    forall j' | 0 <= j' < |ks|
      ensures gs'[j'] == gs[j']
    {
      FilterSnoc(xs, x, key, ks[j']);
      assert gs'[j'] == (ks[j'], Filter(xs + [x], key, ks[j']));
      assert ks[j'] != key(x);
      assert Filter(xs, key, ks[j']) + [] == Filter(xs, key, ks[j']);
    }
    FilterSnoc(xs, x, key, key(x));
    FilterNone(xs, key, key(x));
    assert Filter(xs + [x], key, key(x)) == [] + [x] == [x];
    assert gs'[|ks|] == (key(x), [x]);
    assert |gs'| == |gs| + 1;
  }

  /** A key that no element has selects nothing. */
  lemma {:induction false} FilterNone<V>(xs: seq<V>, key: V -> string, k: string)
    requires k !in Keys(xs, key)
    ensures Filter(xs, key, k) == []
  {
    if xs != [] {
      FilterNone(xs[..|xs| - 1], key, k);
    }
  }

  /** A key is listed exactly when some element has it. */
  lemma {:induction false} KeysComplete<V>(xs: seq<V>, key: V -> string, k: string)
    ensures k in Keys(xs, key) <==> exists i :: 0 <= i < |xs| && key(xs[i]) == k
  {
    if xs != [] {
      var init := xs[..|xs| - 1];
      KeysComplete(init, key, k);
      if exists i :: 0 <= i < |init| && key(init[i]) == k {
        var i :| 0 <= i < |init| && key(init[i]) == k;
        assert xs[i] == init[i];
      }
      if exists i :: 0 <= i < |xs| && key(xs[i]) == k {
        var i :| 0 <= i < |xs| && key(xs[i]) == k;
        if i < |init| {
          assert init[i] == xs[i];
        }
      }
    }
  }

  /** First-occurrence order: elements added later never reorder the keys
      already seen, they only add new keys at the end. */
  lemma {:induction false} KeysPrefix<V>(xs: seq<V>, ys: seq<V>, key: V -> string)
    ensures Keys(xs, key) <= Keys(xs + ys, key)
    decreases |ys|
  {
    if ys == [] {
      assert xs + ys == xs;
    } else {
      var init := ys[..|ys| - 1];
      assert xs + ys == (xs + init) + [ys[|ys| - 1]];
      KeysPrefix(xs, init, key);
      KeysSnoc(xs + init, ys[|ys| - 1], key);
    }
  }

  /** Every group is non-empty and holds only elements of its key. */
  lemma {:induction false} GroupsWellFormed<V>(xs: seq<V>, key: V -> string)
    ensures forall g :: g in Groups(xs, key) ==> g.1 != [] && forall y :: y in g.1 ==> key(y) == g.0
  {
    forall g | g in Groups(xs, key)
      ensures g.1 != [] && forall y :: y in g.1 ==> key(y) == g.0
    {
      var j :| 0 <= j < |Groups(xs, key)| && Groups(xs, key)[j] == g;
      FilterNonEmpty(xs, key, g.0);
      FilterKeys(xs, key, g.0);
    }
  }

  lemma {:induction false} FilterNonEmpty<V>(xs: seq<V>, key: V -> string, k: string)
    requires k in Keys(xs, key)
    ensures Filter(xs, key, k) != []
  {
    var init := xs[..|xs| - 1];
    if key(xs[|xs| - 1]) != k {
      FilterNonEmpty(init, key, k);
    }
  }

  lemma {:induction false} FilterKeys<V>(xs: seq<V>, key: V -> string, k: string)
    ensures forall y :: y in Filter(xs, key, k) ==> key(y) == k
  {
    if xs != [] {
      FilterKeys(xs[..|xs| - 1], key, k);
    }
  }

  /** Each group keeps its elements in input order. */
  lemma {:induction false} FilterIsSubsequence<V>(xs: seq<V>, key: V -> string, k: string)
    ensures IsSubsequence(Filter(xs, key, k), xs)
  {
    if xs != [] {
      var init, x := xs[..|xs| - 1], xs[|xs| - 1];
      FilterIsSubsequence(init, key, k);
      assert xs == init + [x];
      if key(x) == k {
        SubsequenceSnocBoth(Filter(init, key, k), init, x);
      } else {
        SubsequenceSnoc(Filter(init, key, k), init, x);
        assert Filter(init, key, k) + [] == Filter(init, key, k);
      }
    }
  }

  /* A permutation: the groups hold every element exactly once. */

  function Pick<V>(x: V, key: V -> string, ks: seq<string>): multiset<V> {
    if ks == [] then multiset{}
    else Pick(x, key, ks[..|ks| - 1]) + (if key(x) == ks[|ks| - 1] then multiset{x} else multiset{})
  }

  /** The union of the groups of `ks`. */
  function Union<V>(xs: seq<V>, key: V -> string, ks: seq<string>): multiset<V> {
    if ks == [] then multiset{}
    else Union(xs, key, ks[..|ks| - 1]) + multiset(Filter(xs, key, ks[|ks| - 1]))
  }

  lemma {:induction false} PickOnce<V>(x: V, key: V -> string, ks: seq<string>)
    requires DistinctKeys(ks)
    ensures Pick(x, key, ks) == if key(x) in ks then multiset{x} else multiset{}
  {
    if ks != [] {
      var init := ks[..|ks| - 1];
      PickOnce(x, key, init);
      assert ks == init + [ks[|ks| - 1]];
      if key(x) == ks[|ks| - 1] {
        assert key(x) !in init;
      }
    }
  }

  lemma {:induction false} UnionSnoc<V>(xs: seq<V>, x: V, key: V -> string, ks: seq<string>)
    ensures Union(xs + [x], key, ks) == Union(xs, key, ks) + Pick(x, key, ks)
  {
    if ks != [] {
      UnionSnoc(xs, x, key, ks[..|ks| - 1]);
      FilterSnoc(xs, x, key, ks[|ks| - 1]);
    }
  }

  lemma {:induction false} UnionExtraKey<V>(xs: seq<V>, key: V -> string, ks: seq<string>, k: string)
    requires k !in Keys(xs, key)
    ensures Union(xs, key, ks + [k]) == Union(xs, key, ks)
  {
    assert (ks + [k])[..|ks|] == ks;
    FilterNone(xs, key, k);
  }

  lemma {:induction false} UnionOfKeys<V>(xs: seq<V>, key: V -> string)
    ensures Union(xs, key, Keys(xs, key)) == multiset(xs)
  {
    if xs != [] {
      var init, x := xs[..|xs| - 1], xs[|xs| - 1];
      assert xs == init + [x];
      UnionOfKeys(init, key);
      var ks := Keys(init, key);
      if key(x) !in ks {
        UnionExtraKey(init, key, ks, key(x));
      }
      UnionSnoc(init, x, key, Keys(xs, key));
      KeysDistinct(xs, key);
      PickOnce(x, key, Keys(xs, key));
      KeysSnoc(init, x, key);
    }
  }

  lemma {:induction false} FlattenIsUnion<V>(xs: seq<V>, key: V -> string, n: nat)
    requires n <= |Keys(xs, key)|
    ensures multiset(Flatten(Groups(xs, key)[..n])) == Union(xs, key, Keys(xs, key)[..n])
  {
    if n > 0 {
      var gs := Groups(xs, key)[..n];
      assert gs[..n - 1] == Groups(xs, key)[..n - 1];
      assert Keys(xs, key)[..n][..n - 1] == Keys(xs, key)[..n - 1];
      FlattenIsUnion(xs, key, n - 1);
    }
  }

  /** The groups, one after another, are a permutation of the input. */
  lemma GroupsArePermutation<V>(xs: seq<V>, key: V -> string)
    ensures multiset(Flatten(Groups(xs, key))) == multiset(xs)
    ensures |Flatten(Groups(xs, key))| == |xs|
  {
    var gs := Groups(xs, key);
    assert gs[..|gs|] == gs;
    assert Keys(xs, key)[..|gs|] == Keys(xs, key);
    FlattenIsUnion(xs, key, |gs|);
    UnionOfKeys(xs, key);
    assert |multiset(Flatten(gs))| == |multiset(xs)|;
  }
}
