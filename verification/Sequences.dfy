/** Sequences without repetition, and sorting by an integer key. */
module Sequences {

  ghost predicate NoDup<T>(s: seq<T>) {
    forall i, j :: 0 <= i < j < |s| ==> s[i] != s[j]
  }

  lemma {:induction false} NoDupConcat<T>(a: seq<T>, b: seq<T>)
    requires NoDup(a) && NoDup(b)
    requires forall x :: x in a ==> x !in b
    ensures NoDup(a + b)
  {
    var s := a + b;
    forall i, j | 0 <= i < j < |s| ensures s[i] != s[j] {
      if i < |a| && j >= |a| {
        assert s[i] == a[i] && s[j] == b[j - |a|];
        assert s[j] in b;
      }
    }
  }

  function Elements<T>(s: seq<T>): set<T> {
    set x | x in s
  }

  lemma {:induction false} NoDupSize<T>(s: seq<T>)
    requires NoDup(s)
    ensures |Elements(s)| == |s|
    decreases |s|
  {
    if s == [] {
      assert Elements(s) == {};
    } else {
      var n := |s| - 1;
      NoDupSize(s[..n]);
      assert s == s[..n] + [s[n]];
      assert Elements(s) == Elements(s[..n]) + {s[n]};
      assert s[n] !in s[..n];
    }
  }

  /** Some enumeration of a finite set. */
  method Enumerate<T(==)>(s: set<T>) returns (r: seq<T>)
    ensures NoDup(r) && (forall x :: x in r <==> x in s)
  {
    r := [];
    var todo := s;
    while todo != {}
      invariant todo <= s && NoDup(r)
      invariant forall x :: x in r <==> x in s && x !in todo
      decreases todo
    {
      var x :| x in todo;
      r := r + [x];
      todo := todo - {x};
    }
  }

  ghost predicate SortedBy<T(!new)>(s: seq<T>, key: T -> int) {
    forall i, j :: 0 <= i < j < |s| ==> key(s[i]) <= key(s[j])
  }

  /** Sorting by insertion; the order of equal keys is not part of the contract. */
  method SortBy<T(!new)>(s: seq<T>, key: T -> int) returns (r: seq<T>)
    ensures multiset(r) == multiset(s) && SortedBy(r, key)
  {
    r := [];
    for k := 0 to |s|
      invariant multiset(r) == multiset(s[..k]) && SortedBy(r, key)
    {
      r := Insert(r, s[k], key);
      assert s[..k + 1] == s[..k] + [s[k]];
    }
    assert s[..|s|] == s;
  }

  method Insert<T(!new)>(s: seq<T>, x: T, key: T -> int) returns (r: seq<T>)
    requires SortedBy(s, key)
    ensures multiset(r) == multiset(s) + multiset{x} && SortedBy(r, key)
  {
    hide SortedBy;
    var p := |s|;
    while p > 0 && key(s[p - 1]) > key(x)
      invariant 0 <= p <= |s|
      invariant forall i :: p <= i < |s| ==> key(s[i]) > key(x)
    {
      p := p - 1;
    }
    r := s[..p] + [x] + s[p..];
    InsertedSorted(s, x, p, key);
    InsertedMultiset(s, x, p);
  }

  lemma {:induction false} InsertedMultiset<T>(s: seq<T>, x: T, p: nat)
    requires p <= |s|
    ensures multiset(s[..p] + [x] + s[p..]) == multiset(s) + multiset{x}
  {
    assert s == s[..p] + s[p..];
  }

  lemma {:induction false} InsertedSorted<T(!new)>(s: seq<T>, x: T, p: nat, key: T -> int)
    requires p <= |s| && SortedBy(s, key)
    requires p > 0 ==> key(s[p - 1]) <= key(x)
    requires forall i :: p <= i < |s| ==> key(s[i]) > key(x)
    ensures SortedBy(s[..p] + [x] + s[p..], key)
  {
    var r := s[..p] + [x] + s[p..];
    forall i, j | 0 <= i < j < |r| ensures key(r[i]) <= key(r[j]) {
      var a := if i < p then s[i] else if i == p then x else s[i - 1];
      var b := if j < p then s[j] else if j == p then x else s[j - 1];
      assert r[i] == a && r[j] == b;
      if i < p && j >= p {
        assert key(s[i]) <= key(s[p - 1]);
      }
    }
  }

  /** A permutation of a sequence without repetition has none either, and the same elements. */
  lemma {:induction false} PermutedNoDup<T>(a: seq<T>, b: seq<T>)
    requires multiset(a) == multiset(b) && NoDup(a)
    ensures NoDup(b) && |a| == |b| && forall x :: x in b <==> x in a
  {
    assert |multiset(a)| == |a| && |multiset(b)| == |b|;
    forall x ensures x in b <==> x in a {
      assert x in multiset(a) <==> x in a;
      assert x in multiset(b) <==> x in b;
    }
    forall i, j | 0 <= i < j < |b| ensures b[i] != b[j] {
      if b[i] == b[j] {
        TwiceIn(b, i, j);
        OnceIn(a, b[i]);
      }
    }
  }

  lemma {:induction false} TwiceIn<T>(b: seq<T>, i: nat, j: nat)
    requires i < j < |b| && b[i] == b[j]
    ensures multiset(b)[b[i]] >= 2
  {
    assert b == b[..j] + [b[j]] + b[j + 1..];
    assert b[i] in b[..j];
  }

  lemma {:induction false} OnceIn<T>(a: seq<T>, x: T)
    requires NoDup(a)
    ensures multiset(a)[x] <= 1
    decreases |a|
  {
    if a != [] {
      var n := |a| - 1;
      assert a == a[..n] + [a[n]];
      OnceIn(a[..n], x);
      if x == a[n] {
        assert x !in a[..n];
      }
    }
  }
}
