/** Facts about duplicate-free sequences that several parts share. */
module Sequences {
  predicate Distinct<T(==)>(s: seq<T>) {
    forall i, j :: 0 <= i < j < |s| ==> s[i] != s[j]
  }

  function Reverse<T>(s: seq<T>): (r: seq<T>)
    ensures |r| == |s|
    ensures forall i :: 0 <= i < |s| ==> r[i] == s[|s| - 1 - i]
  {
    if s == [] then [] else Reverse(s[1..]) + [s[0]]
  }

  lemma ReverseKeepsElements<T>(s: seq<T>)
    ensures multiset(Reverse(s)) == multiset(s)
    ensures forall x :: x in Reverse(s) <==> x in s
  {
    if s == [] {
    } else {
      ReverseKeepsElements(s[1..]);
      assert s == [s[0]] + s[1..];
    }
    assert forall x :: x in multiset(s) <==> x in s;
    assert forall x :: x in multiset(Reverse(s)) <==> x in Reverse(s);
  }

  function Elements<T(!new)>(s: seq<T>): (r: set<T>)
    ensures forall x :: x in r <==> x in s
  {
    set x | x in s
  }

  /** Pigeonhole: distinct members of a finite set are no more than the set. */
  lemma DistinctFits<T>(s: seq<T>, bound: set<T>)
    requires Distinct(s) && forall i :: 0 <= i < |s| ==> s[i] in bound
    ensures |s| <= |bound|
  {
    if s == [] {
    } else {
      var last := s[|s| - 1];
      var rest := bound - {last};
      assert |rest| == |bound| - 1;
      DistinctFits(s[..|s| - 1], rest);
    }
  }

  function UpTo(n: nat): (r: set<nat>)
    ensures forall x: nat :: x in r <==> x < n
  {
    if n == 0 then {} else UpTo(n - 1) + {n - 1}
  }

  lemma {:induction false} UpToSize(n: nat)
    ensures |UpTo(n)| == n
  {
    if n == 0 {
    } else {
      UpToSize(n - 1);
    }
  }

  lemma Shorter<T>(s: seq<T>, n: nat)
    requires Distinct(s) && n <= |s|
    ensures Distinct(s[n..]) && Distinct(s[..n])
    ensures forall x :: x in s <==> x in s[..n] || x in s[n..]
    ensures forall x :: x in s[..n] ==> x !in s[n..]
  {
    assert s == s[..n] + s[n..];
  }

  /** A duplicate-free sequence holds each of its members once. */
  lemma {:induction false} Occurrences<T>(q: seq<T>, x: T)
    requires Distinct(q)
    ensures multiset(q)[x] == if x in q then 1 else 0
  {
    if q == [] {
    } else {
      Occurrences(q[1..], x);
      assert q == [q[0]] + q[1..];
    }
  }
}
