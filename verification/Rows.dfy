/** Sequences of row indices: flattening a list of batches, and what it means for one to
    hold every row of a shard exactly once. */
module Rows {
  function Flatten<T>(batches: seq<seq<T>>): seq<T> {
    if |batches| == 0 then [] else batches[0] + Flatten(batches[1..])
  }

  ghost predicate Distinct<T>(s: seq<T>) {
    forall i, j :: 0 <= i < j < |s| ==> s[i] != s[j]
  }

  ghost predicate InRange(s: seq<nat>, n: nat) {
    forall k :: 0 <= k < |s| ==> s[k] < n
  }

  /** `s` lists each of 0, ..., n - 1 exactly once. */
  ghost predicate Permutation(s: seq<nat>, n: nat) {
    |s| == n && InRange(s, n) && Distinct(s)
  }

  ghost function Elements<T>(s: seq<T>): set<T> {
    set x | x in s
  }

  lemma {:induction false} FlattenConcat<T>(a: seq<seq<T>>, b: seq<seq<T>>)
    ensures Flatten(a + b) == Flatten(a) + Flatten(b)
  {
    if |a| == 0 {
      assert a + b == b;
    } else {
      assert (a + b)[0] == a[0] && (a + b)[1..] == a[1..] + b;
      FlattenConcat(a[1..], b);
    }
  }

  lemma FlattenOne<T>(batch: seq<T>)
    ensures Flatten([batch]) == batch
  {
    assert Flatten([batch]) == batch + Flatten([]);
  }

  /** Replacing one batch by a list of batches rewrites just that stretch of the flattening. */
  lemma FlattenAround<T>(batches: seq<seq<T>>, i: nat, middle: seq<seq<T>>)
    requires i < |batches|
    ensures Flatten(batches) == Flatten(batches[..i]) + batches[i] + Flatten(batches[i+1..])
    ensures Flatten(batches[..i] + middle + batches[i+1..])
         == Flatten(batches[..i]) + Flatten(middle) + Flatten(batches[i+1..])
  {
    assert batches == batches[..i] + [batches[i]] + batches[i+1..];
    FlattenConcat(batches[..i] + [batches[i]], batches[i+1..]);
    FlattenConcat(batches[..i], [batches[i]]);
    FlattenOne(batches[i]);
    FlattenConcat(batches[..i] + middle, batches[i+1..]);
    FlattenConcat(batches[..i], middle);
  }

  lemma {:induction false} FlattenHas<T>(batches: seq<seq<T>>, x: T)
    ensures x in Flatten(batches) <==> exists b :: 0 <= b < |batches| && x in batches[b]
  {
    if |batches| > 0 {
      FlattenHas(batches[1..], x);
      if b :| 0 <= b < |batches| && x in batches[b] {
        if b > 0 { assert batches[1..][b-1] == batches[b]; }
      }
      if x in Flatten(batches[1..]) {
        var b :| 0 <= b < |batches[1..]| && x in batches[1..][b];
        assert batches[b+1] == batches[1..][b];
      }
    }
  }

  lemma {:induction false} FlattenInRange(batches: seq<seq<nat>>, n: nat)
    ensures InRange(Flatten(batches), n) <==> forall b :: 0 <= b < |batches| ==> InRange(batches[b], n)
  {
    if |batches| > 0 {
      FlattenInRange(batches[1..], n);
      var head, tail := batches[0], Flatten(batches[1..]);
      if InRange(head + tail, n) {
        assert forall k :: 0 <= k < |head| ==> head[k] == (head + tail)[k];
        assert forall k :: 0 <= k < |tail| ==> tail[k] == (head + tail)[|head| + k];
        forall b | 0 <= b < |batches| ensures InRange(batches[b], n) {
          if b > 0 { assert batches[1..][b-1] == batches[b]; }
        }
      }
      if forall b :: 0 <= b < |batches| ==> InRange(batches[b], n) {
        assert forall b :: 0 <= b < |batches[1..]| ==> batches[1..][b] == batches[b+1];
      }
    }
  }

  lemma {:induction false} ElementsBound<T>(s: seq<T>)
    ensures |Elements(s)| <= |s|
    ensures Distinct(s) ==> |Elements(s)| == |s|
  {
    if |s| > 0 {
      var t := s[..|s|-1];
      ElementsBound(t);
      assert Elements(s) == Elements(t) + {s[|s|-1]};
    }
  }

  function Range(n: nat): (r: set<nat>)
    ensures |r| == n && forall i: nat :: i in r <==> i < n
  {
    if n == 0 then {} else Range(n - 1) + {n - 1}
  }

  lemma {:induction false} Included<T>(a: set<T>, b: set<T>)
    requires a <= b
    ensures |a| <= |b| && (|a| == |b| ==> a == b)
  {
    if a != {} {
      var x :| x in a;
      Included(a - {x}, b - {x});
    }
  }

  /** A list that contains 0, ..., n - 1 has at least n entries. */
  lemma CoverNeedsLength(s: seq<nat>, n: nat)
    requires forall i: nat :: i < n ==> i in s
    ensures n <= |s|
  {
    ElementsBound(s);
    Included(Range(n), Elements(s));
  }

  lemma PermutationCovers(s: seq<nat>, n: nat)
    requires Permutation(s, n)
    ensures forall i: nat :: i < n ==> i in s
  {
    ElementsBound(s);
    Included(Elements(s), Range(n));
    forall i: nat | i < n ensures i in s {
      assert i in Range(n) && i in Elements(s);
    }
  }
}
