/**
 * Order-preserving duplicate removal, as performed by LINQ's Enumerable.Distinct: every
 * element is kept at its first occurrence and later repeats are dropped.
 */
module Distinctness {

  predicate NoDup<T(==,!new)>(s: seq<T>) {
    forall i, j :: 0 <= i < j < |s| ==> s[i] != s[j]
  }

  /** The position of the first occurrence of `t` in `s`. */
  function FirstIndex<T(==,!new)>(s: seq<T>, t: T): (k: nat)
    requires t in s
    ensures k < |s| && s[k] == t
    ensures forall j :: 0 <= j < k ==> s[j] != t
  {
    if s[0] == t then 0 else 1 + FirstIndex(s[1..], t)
  }

  /**
   * The duplicate-free sequence of the elements of `s`, defined one element at a time from
   * the back: the last element is appended unless it already occurred earlier.
   */
  function Distinct<T(==,!new)>(s: seq<T>): (r: seq<T>)
    ensures NoDup(r)
    ensures forall t :: t in r <==> t in s
    ensures |r| <= |s|
    decreases |s|
  {
    if |s| == 0 then []
    else
      var d := Distinct(s[..|s| - 1]);
      var e := s[|s| - 1];
      assert s == s[..|s| - 1] + [e];
      if e in d then d else d + [e]
  }

  /** Unfolds Distinct on a sequence with one element appended. */
  lemma DistinctSnoc<T(!new)>(s: seq<T>, e: T)
    ensures Distinct(s + [e]) == if e in Distinct(s) then Distinct(s) else Distinct(s) + [e]
  {
    assert (s + [e])[..|s + [e]| - 1] == s;
  }

  /** A sequence without repeats is left exactly as it is. */
  lemma {:induction false} DistinctOfNoDup<T(!new)>(s: seq<T>)
    requires NoDup(s)
    ensures Distinct(s) == s
    decreases |s|
  {
    if |s| > 0 {
      var p := s[..|s| - 1];
      assert NoDup(p);
      DistinctOfNoDup(p);
      assert s == p + [s[|s| - 1]];
      DistinctSnoc(p, s[|s| - 1]);
    }
  }

  /** Appending input never disturbs what Distinct already produced: the old result is a prefix. */
  lemma {:induction false} DistinctPrefix<T(!new)>(a: seq<T>, b: seq<T>)
    ensures Distinct(a) <= Distinct(a + b)
    decreases |b|
  {
    if |b| == 0 {
      assert a + b == a;
    } else {
      var b' := b[..|b| - 1];
      DistinctPrefix(a, b');
      assert a + b == (a + b') + [b[|b| - 1]];
      DistinctSnoc(a + b', b[|b| - 1]);
    }
  }

  /** Appending elements that already occur changes nothing. */
  lemma {:induction false} DistinctSaturated<T(!new)>(a: seq<T>, b: seq<T>)
    requires forall t :: t in b ==> t in a
    ensures Distinct(a + b) == Distinct(a)
    decreases |b|
  {
    if |b| == 0 {
      assert a + b == a;
    } else {
      var b' := b[..|b| - 1];
      DistinctSaturated(a, b');
      assert a + b == (a + b') + [b[|b| - 1]];
      DistinctSnoc(a + b', b[|b| - 1]);
    }
  }

  /** De-duplicating a prefix first does not change the final result. */
  lemma {:induction false} DistinctAbsorbs<T(!new)>(a: seq<T>, b: seq<T>)
    ensures Distinct(Distinct(a) + b) == Distinct(a + b)
    decreases |b|
  {
    if |b| == 0 {
      assert a + b == a;
      assert Distinct(a) + b == Distinct(a);
      DistinctOfNoDup(Distinct(a));
    } else {
      var b' := b[..|b| - 1];
      var e := b[|b| - 1];
      DistinctAbsorbs(a, b');
      assert a + b == (a + b') + [e];
      assert Distinct(a) + b == (Distinct(a) + b') + [e];
      DistinctSnoc(a + b', e);
      DistinctSnoc(Distinct(a) + b', e);
    }
  }

  /** The survivors appear in the order of their first occurrences in the input. */
  lemma {:induction false} DistinctKeepsFirstOccurrenceOrder<T(!new)>(s: seq<T>)
    ensures forall i, j :: 0 <= i < j < |Distinct(s)| ==>
      FirstIndex(s, Distinct(s)[i]) < FirstIndex(s, Distinct(s)[j])
    decreases |s|
  {
    if |s| > 0 {
      var p := s[..|s| - 1];
      var e := s[|s| - 1];
      var d := Distinct(p);
      DistinctKeepsFirstOccurrenceOrder(p);
      assert s == p + [e];
      DistinctSnoc(p, e);
      var r := Distinct(s);
      assert d <= r;
      forall i, j | 0 <= i < j < |r|
        ensures FirstIndex(s, r[i]) < FirstIndex(s, r[j])
      {
        assert r[i] == d[i];
        FirstIndexOfPrefix(p, [e], d[i]);
        if j < |d| {
          assert r[j] == d[j];
          FirstIndexOfPrefix(p, [e], d[j]);
        } else {
          FirstIndexOfNew(p, e);
        }
      }
    }
  }

  /** An element that is new at the end of a sequence is first found there. */
  lemma FirstIndexOfNew<T(!new)>(p: seq<T>, e: T)
    requires e !in p
    ensures FirstIndex(p + [e], e) == |p|
  {
    forall j | 0 <= j < |p| ensures (p + [e])[j] != e {
      assert (p + [e])[j] == p[j];
    }
    FirstIndexUnique(p + [e], e, |p|);
  }

  lemma FirstIndexOfPrefix<T(!new)>(a: seq<T>, b: seq<T>, t: T)
    requires t in a
    ensures FirstIndex(a + b, t) == FirstIndex(a, t)
  {
    var k := FirstIndex(a, t);
    assert (a + b)[k] == t;
    forall j | 0 <= j < k ensures (a + b)[j] != t { assert (a + b)[j] == a[j]; }
    FirstIndexUnique(a + b, t, k);
  }

  lemma FirstIndexUnique<T(!new)>(s: seq<T>, t: T, k: nat)
    requires k < |s| && s[k] == t
    requires forall j :: 0 <= j < k ==> s[j] != t
    ensures FirstIndex(s, t) == k
  {
  }

  /**
   * The streaming algorithm behind Enumerable.Distinct: walk the input once, remembering the
   * elements already yielded, and yield each element the first time it is seen.
   */
  method DistinctStream<T(==,!new)>(s: seq<T>) returns (r: seq<T>)
    ensures r == Distinct(s)
  {
    var seen: set<T> := {};
    r := [];
    var i := 0;
    while i < |s|
      invariant 0 <= i <= |s|
      invariant r == Distinct(s[..i])
      invariant forall t :: t in seen <==> t in r
    {
      assert s[..i + 1] == s[..i] + [s[i]];
      DistinctSnoc(s[..i], s[i]);
      if s[i] !in seen {
        seen := seen + {s[i]};
        r := r + [s[i]];
      }
      i := i + 1;
    }
    assert s[..i] == s;
  }
}
