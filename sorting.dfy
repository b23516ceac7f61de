/** JavaScript's default `Array.prototype.sort` on strings: ascending
    lexicographic order on characters. The model sorts by insertion; any
    sorted permutation is the same list, so how it is sorted does not matter. */
module Sorting {

  /** Strict lexicographic order; a proper prefix comes first. */
  predicate LexLess(a: string, b: string) {
    if a == [] then b != []
    else if b == [] then false
    else a[0] < b[0] || (a[0] == b[0] && LexLess(a[1..], b[1..]))
  }

  lemma {:induction false} LexIrreflexive(a: string)
    ensures !LexLess(a, a)
  {
    if a != [] {
      LexIrreflexive(a[1..]);
    }
  }

  lemma {:induction false} LexTotal(a: string, b: string)
    ensures a == b || LexLess(a, b) || LexLess(b, a)
  {
    if a != [] && b != [] && a[0] == b[0] {
      LexTotal(a[1..], b[1..]);
      if a[1..] == b[1..] {
        assert a == [a[0]] + a[1..] && b == [b[0]] + b[1..];
      }
    }
  }

  lemma {:induction false} LexTransitive(a: string, b: string, c: string)
    requires LexLess(a, b) && LexLess(b, c)
    ensures LexLess(a, c)
  {
    if a != [] && a[0] == b[0] && b[0] == c[0] {
      LexTransitive(a[1..], b[1..], c[1..]);
    }
  }

  lemma LexAsymmetric(a: string, b: string)
    requires LexLess(a, b)
    ensures !LexLess(b, a)
  {
    if LexLess(b, a) {
      LexTransitive(a, b, a);
      LexIrreflexive(a);
    }
  }

  /** Each element is at most every later one. */
  predicate Sorted(s: seq<string>) {
    forall i, j :: 0 <= i < j < |s| ==> !LexLess(s[j], s[i])
  }

  function Insert(x: string, s: seq<string>): (r: seq<string>)
    ensures multiset(r) == multiset(s) + multiset{x}
    ensures |r| == |s| + 1
  {
    if s == [] then [x]
    else if LexLess(s[0], x) then
      assert s == [s[0]] + s[1..];
      [s[0]] + Insert(x, s[1..])
    else [x] + s
  }

  /** A head no greater than any element of a sorted tail keeps it sorted. */
  lemma SortedCons(h: string, t: seq<string>)
    requires Sorted(t) && forall j :: 0 <= j < |t| ==> !LexLess(t[j], h)
    ensures Sorted([h] + t)
  {
    var r := [h] + t;
    forall i, j | 0 <= i < j < |r|
      ensures !LexLess(r[j], r[i])
    {
      assert r[j] == t[j - 1];
      if i > 0 {
        assert r[i] == t[i - 1];
      }
    }
  }

  lemma SortedHead(s: seq<string>, e: string)
    requires Sorted(s) && s != [] && e in s[1..]
    ensures !LexLess(e, s[0])
  {
    var m :| 0 <= m < |s[1..]| && s[1..][m] == e;
    assert s[m + 1] == e;
  }

  lemma {:induction false} InsertSorted(x: string, s: seq<string>)
    requires Sorted(s)
    ensures Sorted(Insert(x, s))
  {
    if s == [] {
      assert Insert(x, s) == [x];
    } else if LexLess(s[0], x) {
      var t := Insert(x, s[1..]);
      InsertSorted(x, s[1..]);
      forall j | 0 <= j < |t|
        ensures !LexLess(t[j], s[0])
      {
        assert t[j] in multiset(t);
        if t[j] == x {
          LexAsymmetric(s[0], x);
        } else {
          assert t[j] in multiset(s[1..]);
          SortedHead(s, t[j]);
        }
      }
      SortedCons(s[0], t);
    } else {
      forall j | 0 <= j < |s|
        ensures !LexLess(s[j], x)
      {
        if j > 0 && LexLess(s[j], x) {
          LexTotal(s[j], s[0]);
          if s[j] != s[0] {
            LexTransitive(s[0], s[j], x);
          }
        }
      }
      SortedCons(x, s);
    }
  }

  /** `names.sort()`: the names in ascending order. */
  function Sort(s: seq<string>): (r: seq<string>)
    ensures multiset(r) == multiset(s) && |r| == |s|
  {
    if s == [] then []
    else
      assert s == [s[0]] + s[1..];
      Insert(s[0], Sort(s[1..]))
  }

  lemma {:induction false} SortSorted(s: seq<string>)
    ensures Sorted(Sort(s))
  {
    if s != [] {
      SortSorted(s[1..]);
      InsertSorted(s[0], Sort(s[1..]));
    }
  }

  /** The last of the sorted names is the greatest: every other one comes
      before it. */
  lemma SortedLast(r: seq<string>, x: string)
    requires Sorted(r) && x in r
    ensures x == r[|r| - 1] || LexLess(x, r[|r| - 1])
  {
    var i :| 0 <= i < |r| && r[i] == x;
    if i < |r| - 1 {
      assert !LexLess(r[|r| - 1], r[i]);
    }
    LexTotal(x, r[|r| - 1]);
  }

  /** Sorting keeps exactly the elements it was given. */
  lemma SortMembers(s: seq<string>, x: string)
    ensures x in Sort(s) <==> x in s
  {
    assert x in multiset(Sort(s)) <==> x in multiset(s);
  }

  lemma LastIsGreatest(s: seq<string>)
    requires s != []
    ensures var r := Sort(s); var g := r[|r| - 1];
      g in s && forall x :: x in s ==> x == g || LexLess(x, g)
  {
    var r := Sort(s);
    SortSorted(s);
    SortMembers(s, r[|r| - 1]);
    forall x | x in s
      ensures x == r[|r| - 1] || LexLess(x, r[|r| - 1])
    {
      SortMembers(s, x);
      SortedLast(r, x);
    }
  }
}
