/** Sequence operations the source writes as `Array.prototype.filter`. */
module Seqs {

  /** `s.filter(p)`: the elements of `s` that satisfy `p`, in their original order. */
  function Filter<T(!new)>(s: seq<T>, p: T -> bool): (r: seq<T>)
    ensures |r| <= |s|
    ensures forall x :: x in r <==> x in s && p(x)
    ensures forall i :: 0 <= i < |r| ==> p(r[i])
  {
    if s == [] then [] else (if p(s[0]) then [s[0]] else []) + Filter(s[1..], p)
  }

  /** Filtering distributes over concatenation, so the kept elements keep their relative order. */
  lemma {:induction false} FilterConcat<T(!new)>(a: seq<T>, b: seq<T>, p: T -> bool)
    ensures Filter(a + b, p) == Filter(a, p) + Filter(b, p)
  {
    if a != [] {
      assert (a + b)[1..] == a[1..] + b;
      FilterConcat(a[1..], b, p);
    } else {
      assert a + b == b;
    }
  }

  /** Filtering keeps everything exactly when every element satisfies the predicate. */
  lemma {:induction false} FilterAll<T(!new)>(s: seq<T>, p: T -> bool)
    requires forall i :: 0 <= i < |s| ==> p(s[i])
    ensures Filter(s, p) == s
  {
    if s != [] {
      FilterAll(s[1..], p);
    }
  }

  /** The positions of `s` whose element satisfies `p`. */
  ghost function Positions<T>(s: seq<T>, p: T -> bool): set<int> {
    set i | 0 <= i < |s| && p(s[i])
  }

  /** The length of `s.filter(p)` is the number of positions of `s` whose element satisfies `p`. */
  lemma FilterLength<T(!new)>(s: seq<T>, p: T -> bool)
    ensures |Filter(s, p)| == |Positions(s, p)|
  {
    FilterLengthFrom(s, p, 0);
    assert s[0..] == s;
    assert Positions(s, p) == set i | 0 <= i < |s| && p(s[i]);
  }
  lemma {:induction false} FilterLengthFrom<T(!new)>(s: seq<T>, p: T -> bool, k: nat)
    requires k <= |s|
    ensures |Filter(s[k..], p)| == |set i | k <= i < |s| && p(s[i])|
    decreases |s| - k
  {
    var here := set i | k <= i < |s| && p(s[i]);
    if k == |s| {
      assert here == {};
    } else {
      FilterLengthFrom(s, p, k + 1);
      assert s[k..][1..] == s[k + 1..];
      var rest := set i | k + 1 <= i < |s| && p(s[i]);
      if p(s[k]) {
        assert here == rest + {k};
      } else {
        assert here == rest;
      }
    }
  }
}
